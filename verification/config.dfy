/**
 * The meta-rules a model definition must satisfy before a schema is built:
 * a non-empty string hash key, well-typed optional entries, no unknown keys,
 * and the contextual rules on local and global secondary indexes.
 */
module ConfigRules {
  import opened Base
  import opened Json
  import opened RuleTree

  /** The `schema` entry of a definition: a map of field rules, or an object rule of its own. */
  datatype SchemaSpec = FieldRules(rules: map<string, Rule>) | WholeRule(rule: Rule)

  /**
   * A model definition: its JSON-like entries (everything except `schema`) and
   * the field-rule tree given under `schema`, if any.
   */
  datatype Config = Config(fields: map<string, Value>, schema: Option<SchemaSpec>)

  const ConfigKeys: set<string> :=
    {"hashKey", "rangeKey", "tableName", "indexes", "timestamps", "createdAt", "updatedAt"}

  const IndexKeys: set<string> :=
    {"hashKey", "rangeKey", "type", "name", "projection", "readCapacity", "writeCapacity"}

  /** The largest integer a `number()` rule accepts (2^53 - 1); larger magnitudes are unsafe. */
  const MaxSafeInteger: int := 0x1F_FFFF_FFFF_FFFF

  /** A value a `number()` rule accepts. */
  predicate SafeNumber(v: Value) {
    v.Num? && -MaxSafeInteger <= v.n <= MaxSafeInteger
  }

  /** A value an alternative of `string()` and `boolean()` accepts. */
  predicate StringOrBool(v: Value) {
    NonEmptyString(v) || v.Bool?
  }

  datatype IndexProblem =
    | NotAnObject
    | UnknownIndexKeys(keys: set<string>)
    | BadType
    | BadName
    | BadProjection
    | LocalHashKeyMismatch
    | LocalRangeKeyMissing
    | CapacityOnLocal
    | GlobalHashKeyMissing
    | BadKeyName(key: string)
    | BadCapacity(key: string)

  datatype ConfigError =
    | HashKeyMissing
    | BadEntry(key: string)
    | BadIndex(position: nat, problem: IndexProblem)
    | UnknownKeys(keys: set<string>)

  predicate IsLocal(m: map<string, Value>) {
    "type" in m && m["type"] == Str("local")
  }

  predicate IsGlobal(m: map<string, Value>) {
    "type" in m && m["type"] == Str("global")
  }

  /** An entry that is absent or holds a non-empty string. */
  predicate OptionalString(m: map<string, Value>, k: string) {
    k in m ==> NonEmptyString(m[k])
  }

  /** An entry that is absent or holds a safe number. */
  predicate OptionalNumber(m: map<string, Value>, k: string) {
    k in m ==> SafeNumber(m[k])
  }

  /**
   * A secondary index description accepted in the context of the model's hash
   * key: a local index may repeat only that hash key, must name a range key
   * and may not declare capacity; a global index must name its own hash key.
   */
  predicate ValidIndex(idx: Value, hashKey: string) {
    && idx.Obj?
    && idx.fields.Keys <= IndexKeys
    && (IsLocal(idx.fields) || IsGlobal(idx.fields))
    && "name" in idx.fields && NonEmptyString(idx.fields["name"])
    && ("projection" in idx.fields ==> idx.fields["projection"].Obj?)
    && (IsLocal(idx.fields) ==>
          && ("hashKey" in idx.fields ==> idx.fields["hashKey"] == Str(hashKey))
          && "rangeKey" in idx.fields && NonEmptyString(idx.fields["rangeKey"])
          && "readCapacity" !in idx.fields && "writeCapacity" !in idx.fields)
    && (IsGlobal(idx.fields) ==>
          && "hashKey" in idx.fields && NonEmptyString(idx.fields["hashKey"])
          && OptionalString(idx.fields, "rangeKey")
          && OptionalNumber(idx.fields, "readCapacity")
          && OptionalNumber(idx.fields, "writeCapacity"))
  }

  /** A model definition the meta-rules accept. */
  predicate ValidConfig(c: Config) {
    var f := c.fields;
    && f.Keys <= ConfigKeys
    && "hashKey" in f && NonEmptyString(f["hashKey"])
    && OptionalString(f, "rangeKey")
    && ("tableName" in f ==> NonEmptyString(f["tableName"]) || f["tableName"].Fn?)
    && ("indexes" in f ==>
          f["indexes"].Arr?
          && forall i :: 0 <= i < |f["indexes"].elems| ==> ValidIndex(f["indexes"].elems[i], f["hashKey"].s))
    && ("timestamps" in f ==> f["timestamps"].Bool?)
    && ("createdAt" in f ==> StringOrBool(f["createdAt"]))
    && ("updatedAt" in f ==> StringOrBool(f["updatedAt"]))
  }

  /** The first problem with one index description, checking its `type` before the rules that depend on it. */
  function CheckIndex(idx: Value, hashKey: string): (r: Option<IndexProblem>)
    ensures r.None? <==> ValidIndex(idx, hashKey)
  {
    if !idx.Obj? then Some(NotAnObject)
    else
      var m := idx.fields;
      if !(IsLocal(m) || IsGlobal(m)) then Some(BadType)
      else if IsLocal(m) && "hashKey" in m && m["hashKey"] != Str(hashKey) then Some(LocalHashKeyMismatch)
      else if IsGlobal(m) && "hashKey" !in m then Some(GlobalHashKeyMissing)
      else if IsGlobal(m) && !NonEmptyString(m["hashKey"]) then Some(BadKeyName("hashKey"))
      else if IsLocal(m) && "rangeKey" !in m then Some(LocalRangeKeyMissing)
      else if !OptionalString(m, "rangeKey") then Some(BadKeyName("rangeKey"))
      else if !("name" in m && NonEmptyString(m["name"])) then Some(BadName)
      else if "projection" in m && !m["projection"].Obj? then Some(BadProjection)
      else if IsLocal(m) && ("readCapacity" in m || "writeCapacity" in m) then Some(CapacityOnLocal)
      else if !OptionalNumber(m, "readCapacity") then Some(BadCapacity("readCapacity"))
      else if !OptionalNumber(m, "writeCapacity") then Some(BadCapacity("writeCapacity"))
      else if !(m.Keys <= IndexKeys) then Some(UnknownIndexKeys(m.Keys - IndexKeys))
      else None
  }

  /** The first index, from position `from` on, that breaks the index rules. */
  function CheckIndexes(idxs: seq<Value>, hashKey: string, from: nat): (r: Option<ConfigError>)
    requires from <= |idxs|
    ensures r.None? <==> forall j :: from <= j < |idxs| ==> ValidIndex(idxs[j], hashKey)
    ensures r.Some? ==>
              && r.value.BadIndex?
              && from <= r.value.position < |idxs|
              && !ValidIndex(idxs[r.value.position], hashKey)
              && forall j :: from <= j < r.value.position ==> ValidIndex(idxs[j], hashKey)
    decreases |idxs| - from
  {
    if from == |idxs| then None
    else
      match CheckIndex(idxs[from], hashKey)
      case Some(p) => Some(BadIndex(from, p))
      case None => CheckIndexes(idxs, hashKey, from + 1)
  }

  /** The first violated meta-rule of a definition, or none when it is accepted. */
  function CheckConfig(c: Config): (r: Option<ConfigError>)
    ensures r.None? <==> ValidConfig(c)
  {
    var f := c.fields;
    if "hashKey" !in f then Some(HashKeyMissing)
    else if !NonEmptyString(f["hashKey"]) then Some(BadEntry("hashKey"))
    else if !OptionalString(f, "rangeKey") then Some(BadEntry("rangeKey"))
    else if "tableName" in f && !(NonEmptyString(f["tableName"]) || f["tableName"].Fn?) then Some(BadEntry("tableName"))
    else if "indexes" in f && !f["indexes"].Arr? then Some(BadEntry("indexes"))
    else if "indexes" in f && CheckIndexes(f["indexes"].elems, f["hashKey"].s, 0).Some? then
      CheckIndexes(f["indexes"].elems, f["hashKey"].s, 0)
    else if "timestamps" in f && !f["timestamps"].Bool? then Some(BadEntry("timestamps"))
    else if "createdAt" in f && !StringOrBool(f["createdAt"]) then Some(BadEntry("createdAt"))
    else if "updatedAt" in f && !StringOrBool(f["updatedAt"]) then Some(BadEntry("updatedAt"))
    else if !(f.Keys <= ConfigKeys) then Some(UnknownKeys(f.Keys - ConfigKeys))
    else None
  }

  /** The index descriptions of a definition, in order; none when `indexes` is absent. */
  function Indexes(c: Config): seq<Value> {
    if "indexes" in c.fields && c.fields["indexes"].Arr? then c.fields["indexes"].elems else []
  }

  /** A definition without a hash key is refused. */
  lemma MissingHashKeyRejected(c: Config)
    requires "hashKey" !in c.fields
    ensures CheckConfig(c) == Some(HashKeyMissing)
  {
  }

  /**
   * An index whose type is neither `local` nor `global`, a local index without
   * a range key, a local index naming another hash key, and a local index
   * declaring capacity each make the whole definition invalid.
   */
  lemma BadIndexRejected(c: Config, i: nat)
    requires "indexes" in c.fields && c.fields["indexes"].Arr? && i < |c.fields["indexes"].elems|
    requires c.fields["indexes"].elems[i].Obj?
    requires
      var m := c.fields["indexes"].elems[i].fields;
      || !(IsLocal(m) || IsGlobal(m))
      || (IsLocal(m) && "rangeKey" !in m)
      || (IsLocal(m) && "hashKey" in m && ("hashKey" !in c.fields || m["hashKey"] != c.fields["hashKey"]))
      || (IsLocal(m) && ("readCapacity" in m || "writeCapacity" in m))
    ensures !ValidConfig(c) && CheckConfig(c).Some?
  {
    if "hashKey" in c.fields && NonEmptyString(c.fields["hashKey"]) {
      assert !ValidIndex(c.fields["indexes"].elems[i], c.fields["hashKey"].s);
    }
  }

  /** A global index may declare capacity and may omit the range key. */
  lemma GlobalIndexCapacityAccepted()
    ensures ValidIndex(Obj(map["name" := Str("byEmail"), "type" := Str("global"), "hashKey" := Str("email"),
                                 "readCapacity" := Num(5), "writeCapacity" := Num(5)]), "id")
    ensures !ValidIndex(Obj(map["name" := Str("byDate"), "type" := Str("local"), "rangeKey" := Str("date"),
                                  "readCapacity" := Num(5)]), "id")
  {
  }
}
