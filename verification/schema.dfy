/**
 * Building a schema from an accepted definition: key names, the split of
 * secondary indexes into global and local maps keyed by name, automatic
 * timestamp fields, the storage type tree, and default materialisation.
 */
module Schema {
  import opened Base
  import opened Json
  import opened RuleTree
  import opened WireTypes
  import opened ConfigRules

  datatype CompileError =
    /** "Invalid table schema, check your config ..." */
    | InvalidConfig(reason: ConfigError)
    /** Timestamp fields cannot be added to a schema rule that is not an object rule. */
    | KeysOnNonObjectRule

  datatype Schema = Schema(
    hashKey: string,
    rangeKey: Option<string>,
    tableName: Option<Value>,
    timestamps: bool,
    createdAt: Option<Value>,
    updatedAt: Option<Value>,
    globalIndexes: map<string, Value>,
    secondaryIndexes: map<string, Value>,
    modelSchema: Rule,
    datatypes: WireTree)

  /** An index description with a string name. */
  predicate Named(idx: Value) {
    idx.Obj? && "name" in idx.fields && idx.fields["name"].Str?
  }

  function IndexName(idx: Value): string
    requires Named(idx)
  {
    idx.fields["name"].s
  }

  /** An index description whose `type` is `t`. */
  predicate OfType(idx: Value, t: string) {
    idx.Obj? && "type" in idx.fields && idx.fields["type"] == Str(t)
  }

  /** No index after position `i` has type `t` and name `n`. */
  predicate NoneLater(idxs: seq<Value>, i: nat, t: string, n: string)
    requires forall j :: 0 <= j < |idxs| ==> Named(idxs[j])
  {
    forall j :: i < j < |idxs| ==> !(OfType(idxs[j], t) && IndexName(idxs[j]) == n)
  }

  /**
   * The indexes of type `t`, keyed by name; when several share a name the
   * last one in the list is kept.
   */
  function KeyBy(idxs: seq<Value>, t: string): (r: map<string, Value>)
    requires forall i :: 0 <= i < |idxs| ==> Named(idxs[i])
    ensures forall n :: n in r ==> OfType(r[n], t) && Named(r[n]) && IndexName(r[n]) == n
  {
    if |idxs| == 0 then map[]
    else
      var last := idxs[|idxs| - 1];
      var m := KeyBy(idxs[..|idxs| - 1], t);
      if OfType(last, t) then m[IndexName(last) := last] else m
  }

  /**
   * `KeyBy` holds a name exactly when some index of type `t` carries it, and
   * under that name it holds the last such index.
   */
  lemma {:induction false} KeyByExact(idxs: seq<Value>, t: string, n: string)
    requires forall i :: 0 <= i < |idxs| ==> Named(idxs[i])
    ensures n in KeyBy(idxs, t) <==> exists i :: 0 <= i < |idxs| && OfType(idxs[i], t) && IndexName(idxs[i]) == n
    ensures n in KeyBy(idxs, t) ==>
              exists i :: 0 <= i < |idxs| && idxs[i] == KeyBy(idxs, t)[n] && OfType(idxs[i], t)
                && IndexName(idxs[i]) == n && NoneLater(idxs, i, t, n)
    decreases |idxs|
  {
    if |idxs| > 0 {
      var init := idxs[..|idxs| - 1];
      var last := idxs[|idxs| - 1];
      assert forall i :: 0 <= i < |init| ==> init[i] == idxs[i];
      KeyByExact(init, t, n);
      if OfType(last, t) && IndexName(last) == n {
        assert NoneLater(idxs, |idxs| - 1, t, n);
      } else if n in KeyBy(init, t) {
        var i :| 0 <= i < |init| && init[i] == KeyBy(init, t)[n] && OfType(init[i], t)
          && IndexName(init[i]) == n && NoneLater(init, i, t, n);
        assert NoneLater(idxs, i, t, n);
      }
    }
  }

  /** The name under which an automatic timestamp field is stored: a string setting, else `fallback`. */
  function StampName(setting: Option<Value>, fallback: string): (r: string)
    ensures setting.Some? && NonEmptyString(setting.value) ==> r == setting.value.s
    ensures !(setting.Some? && setting.value.Str?) ==> r == fallback
  {
    if setting.Some? && NonEmptyString(setting.value) then setting.value.s else fallback
  }

  /** The automatic timestamp fields, each a date rule; a setting of `false` drops its field. */
  function TimestampFields(createdAt: Option<Value>, updatedAt: Option<Value>): (r: map<string, Rule>)
    ensures createdAt != Some(Bool(false)) ==> StampName(createdAt, "createdAt") in r
    ensures updatedAt != Some(Bool(false)) ==> StampName(updatedAt, "updatedAt") in r
    ensures forall k :: k in r ==>
              && r[k] == DateRule()
              && ((createdAt != Some(Bool(false)) && k == StampName(createdAt, "createdAt"))
                  || (updatedAt != Some(Bool(false)) && k == StampName(updatedAt, "updatedAt")))
    ensures r == map[] <==> createdAt == Some(Bool(false)) && updatedAt == Some(Bool(false))
  {
    var created := if createdAt == Some(Bool(false)) then map[] else map[StampName(createdAt, "createdAt") := DateRule()];
    var updated := if updatedAt == Some(Bool(false)) then map[] else map[StampName(updatedAt, "updatedAt") := DateRule()];
    created + updated
  }

  /** The rule tree the definition's `schema` entry stands for; no entry means an open object rule. */
  function BaseRule(spec: Option<SchemaSpec>): Rule {
    match spec
    case None => ObjectRule(Undeclared)
    case Some(FieldRules(m)) => ObjectRule(Declared(m))
    case Some(WholeRule(r)) => r
  }

  /** The keys an object rule declares; none for an open object. */
  function DeclaredKeys(rule: Rule): map<string, Rule> {
    if rule.keys.Declared? then rule.keys.rules else map[]
  }

  /**
   * An object rule extended with the automatic fields: the new keys join the
   * declared ones, replacing same-named old ones, and with no new key the
   * rule stays as it is. Only object rules can be extended.
   */
  function AddKeys(rule: Rule, extra: map<string, Rule>): (r: Result<Rule, CompileError>)
    ensures r.Success? <==> rule.kind == "object"
    ensures r.Success? && extra == map[] ==> r.value == rule
    ensures r.Success? && extra != map[] ==>
              && r.value == rule.(keys := r.value.keys)
              && r.value.keys.Declared?
              && r.value.keys.rules.Keys == DeclaredKeys(rule).Keys + extra.Keys
              && (forall k :: k in extra ==> r.value.keys.rules[k] == extra[k])
              && (forall k :: k in DeclaredKeys(rule) && k !in extra ==> r.value.keys.rules[k] == DeclaredKeys(rule)[k])
  {
    if rule.kind != "object" then Failure(KeysOnNonObjectRule)
    else if extra == map[] then Success(rule)
    else Success(rule.(keys := Declared(DeclaredKeys(rule) + extra)))
  }

  /**
   * `object.keys(extra)` as the validation library applies it: an empty
   * `extra` means that no key at all is allowed, so every declared key is
   * dropped; a non-empty one extends the declared keys.
   */
  function AddKeysAsWritten(rule: Rule, extra: map<string, Rule>): (r: Result<Rule, CompileError>)
    ensures r.Success? <==> rule.kind == "object"
    ensures r.Success? && extra == map[] ==> r.value.keys == Declared(map[])
    ensures extra != map[] ==> r == AddKeys(rule, extra)
  {
    if rule.kind == "object" && extra == map[] then Success(rule.(keys := Declared(map[])))
    else AddKeys(rule, extra)
  }

  function Entry(f: map<string, Value>, k: string): Option<Value> {
    if k in f then Some(f[k]) else None
  }

  /** Whether the definition switches automatic timestamps on (the default is off). */
  predicate TimestampsOn(c: Config) {
    "timestamps" in c.fields && c.fields["timestamps"] == Bool(true)
  }

  /** The automatic fields a definition asks for. */
  function Stamps(c: Config): map<string, Rule> {
    TimestampFields(Entry(c.fields, "createdAt"), Entry(c.fields, "updatedAt"))
  }

  /**
   * The field-rule tree a compiled schema validates against: the definition's
   * own, extended with the automatic timestamp fields when timestamps are on.
   */
  function ModelRule(c: Config): (r: Result<Rule, CompileError>)
    ensures !TimestampsOn(c) ==> r == Success(BaseRule(c.schema))
    ensures TimestampsOn(c) ==> (r.Success? <==> BaseRule(c.schema).kind == "object")
    ensures TimestampsOn(c) && r.Success? && Stamps(c) != map[] ==>
              && r.value.keys.Declared?
              && r.value.keys.rules.Keys == DeclaredKeys(BaseRule(c.schema)).Keys + Stamps(c).Keys
              && (forall k :: k in Stamps(c) ==> r.value.keys.rules[k] == DateRule())
              && (forall k :: k in DeclaredKeys(BaseRule(c.schema)) && k !in Stamps(c) ==>
                    r.value.keys.rules[k] == DeclaredKeys(BaseRule(c.schema))[k])
  {
    var base := BaseRule(c.schema);
    if TimestampsOn(c) then AddKeys(base, Stamps(c))
    else Success(base)
  }

  /** The field-rule tree as the constructor builds it, extending through `AddKeysAsWritten`. */
  function ModelRuleAsWritten(c: Config): (r: Result<Rule, CompileError>)
    ensures Stamps(c) != map[] || !TimestampsOn(c) ==> r == ModelRule(c)
  {
    var base := BaseRule(c.schema);
    if TimestampsOn(c) then AddKeysAsWritten(base, Stamps(c))
    else Success(base)
  }

  /**
   * With timestamps on but both timestamp settings `false`, the constructor
   * as written drops every declared field: a definition declaring `name`
   * ends with an empty type tree, while the corrected rule keeps `name`.
   */
  lemma BothStampsOffDropsFields(name: string)
    ensures
      var c := Config(map["hashKey" := Str("id"), "timestamps" := Bool(true), "createdAt" := Bool(false),
                          "updatedAt" := Bool(false)], Some(FieldRules(map[name := Plain("string")])));
      && ModelRuleAsWritten(c).Success?
      && ParseDynamoTypes(ModelRuleAsWritten(c).value) == Fields(map[])
      && Compile(c).Success?
      && Compile(c).value.datatypes == Fields(map[name := Tag("S")])
  {
    var c := Config(map["hashKey" := Str("id"), "timestamps" := Bool(true), "createdAt" := Bool(false),
                        "updatedAt" := Bool(false)], Some(FieldRules(map[name := Plain("string")])));
    assert Stamps(c) == map[];
    assert CheckConfig(c).None?;
    assert ParseDynamoTypes(Plain("string")) == Tag("S");
  }

  /** Turning both timestamp fields off is the same as turning timestamps off. */
  lemma BothStampsOffLikeTimestampsOff(c: Config)
    requires TimestampsOn(c) && Entry(c.fields, "createdAt") == Some(Bool(false))
    requires Entry(c.fields, "updatedAt") == Some(Bool(false)) && BaseRule(c.schema).kind == "object"
    ensures ModelRule(c) == ModelRule(c.(fields := c.fields["timestamps" := Bool(false)]))
  {
  }

  /** The schema constructor: validate the definition, then derive everything else from it. */
  function Compile(c: Config): (r: Result<Schema, CompileError>)
    ensures r.Success? <==> ValidConfig(c) && ModelRule(c).Success?
    ensures !ValidConfig(c) ==> r == Failure(InvalidConfig(CheckConfig(c).value))
    ensures r.Success? ==>
              && r.value.hashKey == c.fields["hashKey"].s
              && r.value.rangeKey == (if "rangeKey" in c.fields then Some(c.fields["rangeKey"].s) else None)
              && r.value.modelSchema == ModelRule(c).value
              && r.value.datatypes == ParseDynamoTypes(r.value.modelSchema)
  {
    match CheckConfig(c)
    case Some(e) => Failure(InvalidConfig(e))
    case None =>
      var f := c.fields;
      var idxs := Indexes(c);
      assert forall i :: 0 <= i < |idxs| ==> ValidIndex(idxs[i], f["hashKey"].s);
      match ModelRule(c)
      case Failure(e) => Failure(e)
      case Success(rule) =>
        Success(Schema(
          hashKey := f["hashKey"].s,
          rangeKey := if "rangeKey" in f then Some(f["rangeKey"].s) else None,
          tableName := Entry(f, "tableName"),
          timestamps := TimestampsOn(c),
          createdAt := Entry(f, "createdAt"),
          updatedAt := Entry(f, "updatedAt"),
          globalIndexes := KeyBy(idxs, "global"),
          secondaryIndexes := KeyBy(idxs, "local"),
          modelSchema := rule,
          datatypes := ParseDynamoTypes(rule)))
  }

  /**
   * The global map holds exactly the global indexes and the local map exactly
   * the local ones, each keyed by name; every accepted index is in one of them.
   */
  lemma IndexesPartitioned(c: Config, n: string)
    requires Compile(c).Success?
    ensures n in Compile(c).value.globalIndexes <==>
              exists i :: 0 <= i < |Indexes(c)| && OfType(Indexes(c)[i], "global") && IndexName(Indexes(c)[i]) == n
    ensures n in Compile(c).value.secondaryIndexes <==>
              exists i :: 0 <= i < |Indexes(c)| && OfType(Indexes(c)[i], "local") && IndexName(Indexes(c)[i]) == n
    ensures forall i :: 0 <= i < |Indexes(c)| ==>
              var idx := Indexes(c)[i];
              IndexName(idx) in Compile(c).value.globalIndexes || IndexName(idx) in Compile(c).value.secondaryIndexes
  {
    var idxs := Indexes(c);
    KeyByExact(idxs, "global", n);
    KeyByExact(idxs, "local", n);
    forall i | 0 <= i < |idxs|
      ensures IndexName(idxs[i]) in Compile(c).value.globalIndexes
           || IndexName(idxs[i]) in Compile(c).value.secondaryIndexes
    {
      assert ValidIndex(idxs[i], c.fields["hashKey"].s);
      KeyByExact(idxs, "global", IndexName(idxs[i]));
      KeyByExact(idxs, "local", IndexName(idxs[i]));
    }
  }

  /** Under each name the global map holds the last global index of that name. */
  lemma LastIndexOfANameKept(c: Config, n: string)
    requires Compile(c).Success? && n in Compile(c).value.globalIndexes
    ensures exists i :: 0 <= i < |Indexes(c)| && Indexes(c)[i] == Compile(c).value.globalIndexes[n]
              && OfType(Indexes(c)[i], "global") && IndexName(Indexes(c)[i]) == n
              && NoneLater(Indexes(c), i, "global", n)
  {
    KeyByExact(Indexes(c), "global", n);
  }

  /** When no two indexes share a name, no name is both a global and a local index. */
  lemma DistinctNamesDisjoint(c: Config)
    requires Compile(c).Success?
    requires forall i, j :: 0 <= i < j < |Indexes(c)| ==> IndexName(Indexes(c)[i]) != IndexName(Indexes(c)[j])
    ensures Compile(c).value.globalIndexes.Keys !! Compile(c).value.secondaryIndexes.Keys
  {
    var s := Compile(c).value;
    var idxs := Indexes(c);
    forall n | n in s.globalIndexes
      ensures n !in s.secondaryIndexes
    {
      IndexesPartitioned(c, n);
      var i :| 0 <= i < |idxs| && OfType(idxs[i], "global") && IndexName(idxs[i]) == n;
      if j :| 0 <= j < |idxs| && OfType(idxs[j], "local") && IndexName(idxs[j]) == n {
        assert false;
      }
    }
  }

  /** A global and a local index may share a name, and then the name is in both maps. */
  lemma SharedNameInBothMaps()
    ensures
      var g := Obj(map["name" := Str("byDate"), "type" := Str("global"), "hashKey" := Str("owner")]);
      var l := Obj(map["name" := Str("byDate"), "type" := Str("local"), "rangeKey" := Str("date")]);
      var c := Config(map["hashKey" := Str("id"), "indexes" := Arr([g, l])], None);
      Compile(c).Success? && "byDate" in Compile(c).value.globalIndexes && "byDate" in Compile(c).value.secondaryIndexes
  {
    var g := Obj(map["name" := Str("byDate"), "type" := Str("global"), "hashKey" := Str("owner")]);
    var l := Obj(map["name" := Str("byDate"), "type" := Str("local"), "rangeKey" := Str("date")]);
    var c := Config(map["hashKey" := Str("id"), "indexes" := Arr([g, l])], None);
    assert ValidIndex(g, "id") && ValidIndex(l, "id");
    assert CheckConfig(c).None?;
    assert Indexes(c) == [g, l];
    IndexesPartitioned(c, "byDate");
    assert OfType(Indexes(c)[0], "global") && IndexName(Indexes(c)[0]) == "byDate";
    assert OfType(Indexes(c)[1], "local") && IndexName(Indexes(c)[1]) == "byDate";
  }

  /**
   * With timestamps on, the storage type tree gains a `DATE` field under the
   * configured name (or `createdAt` / `updatedAt`) unless that setting is
   * `false`; every other field keeps the type its rule gives it.
   */
  lemma TimestampFieldsInTypeTree(c: Config)
    requires Compile(c).Success? && TimestampsOn(c)
    ensures
      var t := Compile(c).value.datatypes;
      var createdAt := Entry(c.fields, "createdAt");
      var updatedAt := Entry(c.fields, "updatedAt");
      && t.Fields?
      && (createdAt != Some(Bool(false)) ==> t.fields[StampName(createdAt, "createdAt")] == Tag("DATE"))
      && (updatedAt != Some(Bool(false)) ==> t.fields[StampName(updatedAt, "updatedAt")] == Tag("DATE"))
      && (forall k :: k in DeclaredKeys(BaseRule(c.schema)) && k !in Stamps(c) ==>
            t.fields[k] == ParseDynamoTypes(DeclaredKeys(BaseRule(c.schema))[k]))
  {
    var rule := ModelRule(c).value;
    var base := BaseRule(c.schema);
    if Stamps(c) != map[] {
      var ks := rule.keys.rules;
      assert forall k :: k in Stamps(c) ==> ks[k] == DateRule();
      assert forall k :: k in Stamps(c) ==> Compile(c).value.datatypes.fields[k] == ParseDynamoTypes(ks[k]);
    } else {
      assert rule == base;
    }
  }

  /** With timestamps off, the rule tree is the definition's own and no field is added. */
  lemma NoTimestampFieldsWhenOff(c: Config)
    requires Compile(c).Success? && !TimestampsOn(c)
    ensures Compile(c).value.modelSchema == BaseRule(c.schema)
  {
  }

  /** A created-at setting of `false` leaves no created-at field even when timestamps are on. */
  lemma CreatedAtFalseAddsOnlyUpdatedAt()
    ensures
      var c := Config(map["hashKey" := Str("id"), "timestamps" := Bool(true), "createdAt" := Bool(false),
                          "updatedAt" := Str("modified")], None);
      Compile(c).Success? && Compile(c).value.datatypes == Fields(map["modified" := Tag("DATE")])
  {
    var c := Config(map["hashKey" := Str("id"), "timestamps" := Bool(true), "createdAt" := Bool(false),
                        "updatedAt" := Str("modified")], None);
    assert CheckConfig(c).None?;
    assert Stamps(c) == map["modified" := DateRule()];
    var rule := ModelRule(c).value;
    assert rule.keys.rules == map["modified" := DateRule()];
    var t := ParseDynamoTypes(rule);
    assert t.fields.Keys == {"modified"};
  }

  /** A definition with only a hash key compiles to an empty type tree: the hash key gets no entry. */
  lemma HashKeyWithoutRuleIsUntracked()
    ensures
      var c := Config(map["hashKey" := Str("id")], None);
      Compile(c).Success? && Compile(c).value.datatypes == Fields(map[])
  {
    var c := Config(map["hashKey" := Str("id")], None);
    assert CheckConfig(c).None?;
  }

  /** A value holding no function anywhere a default could still be pending (inside plain objects). */
  predicate NoPendingDefaults(v: Value)
    decreases v
  {
    match v
    case Fn(_) => false
    case Obj(m) => forall k :: k in m ==> NoPendingDefaults(m[k])
    case _ => true
  }

  /** A value with every pending default function replaced by its result, descending into plain objects only. */
  function InvokeDefaults(v: Value, run: nat -> Value): (r: Value)
    ensures v.Fn? ==> r == run(v.id)
    ensures !v.Fn? && !v.Obj? ==> r == v
    ensures v.Obj? ==> r.Obj? && r.fields.Keys == v.fields.Keys
    decreases v
  {
    match v
    case Fn(id) => run(id)
    case Obj(m) => Obj(map k | k in m :: InvokeDefaults(m[k], run))
    case _ => v
  }

  /**
   * The attribute map with each function value replaced by its call result
   * (`run` gives the result of calling a function value), plain objects
   * processed recursively and all other values left alone.
   */
  function InvokeDefaultFunctions(data: Attrs, run: nat -> Value): (r: Attrs)
    ensures r.Keys == data.Keys
    ensures forall k :: k in data && data[k].Fn? ==> r[k] == run(data[k].id)
    ensures forall k :: k in data && !data[k].Fn? && !data[k].Obj? ==> r[k] == data[k]
    ensures forall k :: k in data && data[k].Obj? ==> r[k].Obj? && r[k].fields.Keys == data[k].fields.Keys
    ensures forall k :: k in data ==> r[k] == InvokeDefaults(data[k], run)
  {
    var r := InvokeDefaults(Obj(data), run).fields;
    assert forall k :: k in data ==> r[k] == InvokeDefaults(data[k], run);
    r
  }

  /** The value reached from `v` by following object keys along `path`, if every step exists. */
  function ValueAt(v: Value, path: seq<string>): Option<Value>
    decreases |path|
  {
    if |path| == 0 then Some(v)
    else if v.Obj? && path[0] in v.fields then ValueAt(v.fields[path[0]], path[1..])
    else None
  }

  /**
   * A function value at any object path is replaced, at that same path, by
   * the result of calling it; the path itself survives.
   */
  lemma {:induction false} DefaultAtPath(v: Value, path: seq<string>, id: nat, run: nat -> Value)
    requires ValueAt(v, path) == Some(Fn(id))
    ensures ValueAt(InvokeDefaults(v, run), path) == Some(run(id))
    decreases |path|
  {
    if |path| > 0 {
      var k := path[0];
      assert InvokeDefaults(v, run).fields[k] == InvokeDefaults(v.fields[k], run);
      DefaultAtPath(v.fields[k], path[1..], id, run);
    }
  }

  /** Values without pending defaults come through unchanged: supplied fields are never overwritten. */
  lemma {:induction false} SuppliedValuesKept(v: Value, run: nat -> Value)
    requires NoPendingDefaults(v)
    ensures InvokeDefaults(v, run) == v
    decreases v
  {
    match v
    case Obj(m) =>
      forall k | k in m
        ensures InvokeDefaults(m[k], run) == m[k]
      {
        SuppliedValuesKept(m[k], run);
      }
      assert InvokeDefaults(v, run).fields == m;
    case _ =>
  }

  /** When generators return plain data, nothing is left pending afterwards. */
  lemma {:induction false} DefaultsResolved(v: Value, run: nat -> Value)
    requires forall id :: NoPendingDefaults(run(id))
    ensures NoPendingDefaults(InvokeDefaults(v, run))
    decreases v
  {
    match v
    case Obj(m) =>
      forall k | k in m
        ensures NoPendingDefaults(InvokeDefaults(m[k], run))
      {
        DefaultsResolved(m[k], run);
      }
    case _ =>
  }

  /** With generators returning plain data, materialising defaults twice is the same as once. */
  lemma DefaultsIdempotent(data: Attrs, run: nat -> Value)
    requires forall id :: NoPendingDefaults(run(id))
    ensures InvokeDefaultFunctions(InvokeDefaultFunctions(data, run), run) == InvokeDefaultFunctions(data, run)
  {
    DefaultsResolved(Obj(data), run);
    SuppliedValuesKept(InvokeDefaults(Obj(data), run), run);
  }

  /**
   * `applyDefaults`: validate (the validation engine is a parameter returning
   * the validated value), then materialise every pending default.
   */
  function ApplyDefaults(data: Attrs, validate: Attrs -> Attrs, run: nat -> Value): (r: Attrs)
    ensures r.Keys == validate(data).Keys
    ensures forall k :: k in validate(data) && NoPendingDefaults(validate(data)[k]) ==> r[k] == validate(data)[k]
    ensures forall k :: k in validate(data) && validate(data)[k].Fn? ==> r[k] == run(validate(data)[k].id)
  {
    var valid := validate(data);
    forall k | k in valid && NoPendingDefaults(valid[k])
      ensures InvokeDefaults(valid[k], run) == valid[k]
    {
      SuppliedValuesKept(valid[k], run);
    }
    InvokeDefaultFunctions(valid, run)
  }
}
