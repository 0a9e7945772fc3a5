/**
 * The per-field storage type tree derived from a rule description: structural
 * inference (`S`, `N`, `BOOL`, `B`, `L`, `DATE`, nested maps, element-wise lists)
 * overridden by an explicit `dynamoType` annotation.
 */
module WireTypes {
  import opened Base
  import opened Json
  import opened RuleTree

  /** A storage type tag, no tag (`null` in JavaScript), a nested map or an element-wise list. */
  datatype WireTree =
    | Tag(tag: string)
    | Untyped
    | Fields(fields: map<string, WireTree>)
    | Elements(elems: seq<WireTree>)

  /** The rule kinds that have a storage tag of their own. */
  const TaggedKinds: set<string> := {"string", "date", "number", "boolean", "binary", "array"}

  /** The storage tag inferred from a rule kind alone. */
  function WireType(kind: string): (r: WireTree)
    ensures r.Tag? <==> kind in TaggedKinds
    ensures r.Untyped? <==> kind !in TaggedKinds
    ensures kind == "string" ==> r == Tag("S")
    ensures kind == "number" ==> r == Tag("N")
    ensures kind == "boolean" ==> r == Tag("BOOL")
    ensures kind == "binary" ==> r == Tag("B")
    ensures kind == "array" ==> r == Tag("L")
    ensures kind == "date" ==> r == Tag("DATE")
  {
    match kind
    case "string" => Tag("S")
    case "date" => Tag("DATE")
    case "number" => Tag("N")
    case "boolean" => Tag("BOOL")
    case "binary" => Tag("B")
    case "array" => Tag("L")
    case _ => Untyped
  }

  /** Distinct tagged kinds get distinct tags, and none of them is a set tag. */
  lemma WireTypeInjective(k1: string, k2: string)
    requires k1 in TaggedKinds && k2 in TaggedKinds && k1 != k2
    ensures WireType(k1) != WireType(k2)
    ensures WireType(k1).tag !in {"SS", "NS", "BS"}
  {
  }

  /** A metadata entry whose `dynamoType` is a string. */
  predicate HasDynamoType(m: Meta) {
    "dynamoType" in m.entries && m.entries["dynamoType"].Str?
  }

  /** The `dynamoType` of the first annotation that carries one as a string. */
  function FirstDynamoType(metas: seq<Meta>): (r: Option<string>)
    ensures r.None? <==> forall i :: 0 <= i < |metas| ==> !HasDynamoType(metas[i])
    ensures r.Some? ==>
              exists i :: 0 <= i < |metas| && HasDynamoType(metas[i])
                && metas[i].entries["dynamoType"] == Str(r.value)
                && forall j :: 0 <= j < i ==> !HasDynamoType(metas[j])
  {
    if |metas| == 0 then None
    else if HasDynamoType(metas[0]) then Some(metas[0].entries["dynamoType"].s)
    else
      var r := FirstDynamoType(metas[1..]);
      assert forall i :: 1 <= i < |metas| ==> metas[i] == metas[1..][i - 1];
      r
  }

  /** An explicit annotation wins; without one, the tag comes from the rule kind. */
  function FindDynamoTypeMetadata(rule: Rule): (r: WireTree)
    ensures r.Tag? || r.Untyped?
    ensures (rule.metas.None? || forall i :: 0 <= i < |rule.metas.value| ==> !HasDynamoType(rule.metas.value[i])) ==>
              r == WireType(rule.kind)
    ensures forall i ::
              (rule.metas.Some? && 0 <= i < |rule.metas.value| && HasDynamoType(rule.metas.value[i])
               && forall j :: 0 <= j < i ==> !HasDynamoType(rule.metas.value[j]))
              ==> r == Tag(rule.metas.value[i].entries["dynamoType"].s)
  {
    var found := if rule.metas.Some? then FirstDynamoType(rule.metas.value) else None;
    if found.Some? then Tag(found.value) else WireType(rule.kind)
  }

  /** An array rule that carries no annotation at all. */
  predicate BareArray(rule: Rule) {
    rule.kind == "array" && (rule.metas.None? || |rule.metas.value| < 1)
  }

  /** The storage type tree of a rule description. */
  function ParseDynamoTypes(rule: Rule): (r: WireTree)
    ensures rule.kind == "object" ==>
              r.Fields? && r.fields.Keys == (if rule.keys.Declared? then rule.keys.rules.Keys else {})
    ensures BareArray(rule) && rule.items.NoItems? ==> r == Tag("L")
    ensures BareArray(rule) && rule.items.ItemRules? ==>
              && r.Elements? && |r.elems| == |rule.items.rules|
              && forall i :: 0 <= i < |r.elems| ==> r.elems[i] == ParseDynamoTypes(rule.items.rules[i])
    decreases rule
  {
    if rule.kind == "object" then
      match rule.keys
      case Undeclared => Fields(map[])
      case Declared(ks) => Fields(map k | k in ks :: ParseDynamoTypes(ks[k]))
    else if BareArray(rule) then
      match rule.items
      case NoItems => WireType("array")
      case ItemRules(its) => Elements(seq(|its|, i requires 0 <= i < |its| => ParseDynamoTypes(its[i])))
    else
      FindDynamoTypeMetadata(rule)
  }

  /**
   * On any rule other than an object, the first annotation carrying a string
   * `dynamoType` decides the tag, whatever the rule's kind.
   */
  lemma AnnotationWins(rule: Rule, i: nat)
    requires rule.kind != "object" && rule.metas.Some?
    requires i < |rule.metas.value| && HasDynamoType(rule.metas.value[i])
    requires forall j :: 0 <= j < i ==> !HasDynamoType(rule.metas.value[j])
    ensures ParseDynamoTypes(rule) == Tag(rule.metas.value[i].entries["dynamoType"].s)
  {
    var ms := rule.metas.value;
    var found := FirstDynamoType(ms);
    assert found.Some?;
    var w :| 0 <= w < |ms| && HasDynamoType(ms[w]) && ms[w].entries["dynamoType"] == Str(found.value)
      && forall j :: 0 <= j < w ==> !HasDynamoType(ms[j]);
    assert w == i;
  }

  /** Without any string `dynamoType`, a rule that is neither an object nor a bare array is tagged by kind. */
  lemma KindDecidesWithoutAnnotation(rule: Rule)
    requires rule.kind != "object" && !BareArray(rule)
    requires rule.metas.Some? ==> forall j :: 0 <= j < |rule.metas.value| ==> !HasDynamoType(rule.metas.value[j])
    ensures ParseDynamoTypes(rule) == WireType(rule.kind)
  {
  }

  /** The set helpers are stored as sets, never as the list their array kind alone would give. */
  lemma SetHelpersAreSets()
    ensures ParseDynamoTypes(StringSet()) == Tag("SS")
    ensures ParseDynamoTypes(NumberSet()) == Tag("NS")
    ensures ParseDynamoTypes(BinarySet()) == Tag("BS")
    ensures WireType(StringSet().kind) == Tag("L")
  {
    AnnotationWins(StringSet(), 0);
    AnnotationWins(NumberSet(), 0);
    AnnotationWins(BinarySet(), 0);
  }

  /** The identifier helpers are plain strings carrying a generated default. */
  lemma IdentifierHelpersAreStrings()
    ensures ParseDynamoTypes(Uuid()) == Tag("S") && ParseDynamoTypes(TimeUuid()) == Tag("S")
    ensures Uuid().defaultValue.Some? && Uuid().defaultValue.value.Fn?
    ensures TimeUuid().defaultValue.Some? && TimeUuid().defaultValue.value.Fn?
  {
  }

  /** The nested rule reached by following object keys along `path`, if every step exists. */
  function RuleAt(rule: Rule, path: seq<string>): Option<Rule>
    decreases |path|
  {
    if |path| == 0 then Some(rule)
    else if rule.kind == "object" && rule.keys.Declared? && path[0] in rule.keys.rules then
      RuleAt(rule.keys.rules[path[0]], path[1..])
    else None
  }

  /** The nested storage type reached by following map fields along `path`, if every step exists. */
  function TreeAt(tree: WireTree, path: seq<string>): Option<WireTree>
    decreases |path|
  {
    if |path| == 0 then Some(tree)
    else if tree.Fields? && path[0] in tree.fields then TreeAt(tree.fields[path[0]], path[1..])
    else None
  }

  /** Only object rules produce nested maps. */
  lemma FieldsOnlyFromObjects(rule: Rule)
    ensures ParseDynamoTypes(rule).Fields? <==> rule.kind == "object"
  {
  }

  /**
   * The storage type of a nested field path is the storage type of the rule at
   * that path, and the path exists in the type tree exactly when it exists in
   * the rule tree.
   */
  lemma {:induction false} PathCompositional(rule: Rule, path: seq<string>)
    ensures TreeAt(ParseDynamoTypes(rule), path).Some? <==> RuleAt(rule, path).Some?
    ensures RuleAt(rule, path).Some? ==>
              TreeAt(ParseDynamoTypes(rule), path) == Some(ParseDynamoTypes(RuleAt(rule, path).value))
    decreases |path|
  {
    if |path| > 0 {
      FieldsOnlyFromObjects(rule);
      var tree := ParseDynamoTypes(rule);
      if rule.kind == "object" && rule.keys.Declared? && path[0] in rule.keys.rules {
        assert tree.fields[path[0]] == ParseDynamoTypes(rule.keys.rules[path[0]]);
        PathCompositional(rule.keys.rules[path[0]], path[1..]);
      }
    }
  }
}
