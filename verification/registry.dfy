/**
 * The model registry: a name-to-model map with definition, lookup,
 * replacement and reset; the default table name of a defined model; per-model
 * table overrides; the shared document client and driver, created lazily and
 * rebound to every registered model; and the `createTables` entry point.
 */
module Registry {
  import opened Base
  import opened Json
  import opened ConfigRules
  import Schema
  import opened Calling
  import Provisioning

  /** A low-level service driver: one the caller supplied, the library default, or the service of a given document client. */
  datatype Driver = Supplied(id: nat) | DefaultDriver | ServiceOf(client: nat)

  /** A document client: one the caller supplied, or one the library built around a driver. */
  datatype Client = Given(id: nat) | Wrapping(driver: Driver)

  /** The table a model is bound to: its configured name and the client it talks through. */
  datatype TableBinding = TableBinding(name: Value, client: Client)

  datatype Model = Model(name: string, schema: Schema.Schema, table: TableBinding)

  /**
   * Registry state: the models by name, the order their names were first
   * registered in (the order object keys enumerate in), and the shared client
   * and driver once created or supplied.
   */
  datatype State = State(models: map<string, Model>, order: seq<string>, docClient: Option<Client>, driver: Option<Driver>)

  /** The names in `order` are distinct and are exactly the registered names. */
  predicate Valid(st: State) {
    (forall i, j :: 0 <= i < j < |st.order| ==> st.order[i] != st.order[j])
    && st.models.Keys == (set n | n in st.order)
  }

  /** A fresh registry: no models, no client or driver yet. */
  function Initial(): (st: State)
    ensures Valid(st) && st.models == map[]
  {
    State(map[], [], None, None)
  }

  // ---- table names ----

  function LowerChar(c: char): char {
    if 'A' <= c <= 'Z' then (c as int + 32) as char else c
  }

  /** Lower-casing, on the ASCII letters. */
  function ToLower(s: string): (r: string)
    ensures |r| == |s|
    ensures forall i :: 0 <= i < |s| ==> r[i] == LowerChar(s[i])
  {
    seq(|s|, i requires 0 <= i < |s| => LowerChar(s[i]))
  }

  /** The default table name: the model name in lower case followed by `s`. */
  function DefaultTableName(name: string): (r: string)
    ensures |r| == |name| + 1 && r[|name|] == 's'
    ensures forall i :: 0 <= i < |name| ==> r[i] == LowerChar(name[i])
    ensures forall i :: 0 <= i < |r| ==> !('A' <= r[i] <= 'Z')
  {
    ToLower(name) + "s"
  }

  /** Names that differ only in the case of their letters get the same table. */
  lemma {:induction false} TableNameIgnoresCase(a: string, b: string)
    requires |a| == |b| && forall i :: 0 <= i < |a| ==> LowerChar(a[i]) == LowerChar(b[i])
    ensures DefaultTableName(a) == DefaultTableName(b)
  {
    assert ToLower(a) == ToLower(b);
  }

  lemma AccountTableName()
    ensures DefaultTableName("Account") == "accounts"
  {
  }

  // ---- the shared client and driver ----

  /** The driver, created with the library default the first time it is asked for. */
  function LoadDriver(st: State): (r: State)
    ensures r.driver.Some? && r.models == st.models && r.order == st.order && r.docClient == st.docClient
    ensures st.driver.Some? ==> r == st
  {
    if st.driver.Some? then st else st.(driver := Some(DefaultDriver))
  }

  /** The document client, created around the (lazily loaded) driver the first time it is asked for. */
  function LoadDocClient(st: State): (r: State)
    ensures r.docClient.Some? && r.models == st.models && r.order == st.order
    ensures st.docClient.Some? ==> r == st
    ensures st.driver.Some? ==> r.driver == st.driver
    ensures st.docClient.None? ==> r.driver.Some? && r.docClient == Some(Wrapping(r.driver.value))
  {
    if st.docClient.Some? then st
    else
      var withDriver := LoadDriver(st);
      withDriver.(docClient := Some(Wrapping(withDriver.driver.value)))
  }

  /** The driver a document client works through. */
  function Service(c: Client): Driver {
    match c
    case Given(id) => ServiceOf(id)
    case Wrapping(d) => d
  }

  // ---- per-model table configuration ----

  /** The recognised fields of a `config` argument; `None` and `Null` stand for missing or falsy ones. */
  datatype TableConfig = TableConfig(tableName: Value, docClient: Option<Client>, dynamodb: Option<Driver>)

  /**
   * `Model.config`: a truthy table name replaces the configured one; a
   * supplied document client is used as it is, otherwise a supplied driver is
   * wrapped in a new client; with neither the client stays. The rest of the
   * model is untouched, and the table binding afterwards is what is returned.
   */
  function Configure(m: Model, cfg: TableConfig): (r: Model)
    ensures r.name == m.name && r.schema == m.schema
    ensures r.table.name == (if Truthy(cfg.tableName) then cfg.tableName else m.table.name)
    ensures cfg.docClient.Some? ==> r.table.client == cfg.docClient.value
    ensures cfg.docClient.None? && cfg.dynamodb.Some? ==> r.table.client == Wrapping(cfg.dynamodb.value)
    ensures cfg.docClient.None? && cfg.dynamodb.None? ==> r.table.client == m.table.client
  {
    var name := if Truthy(cfg.tableName) then cfg.tableName else m.table.name;
    var client :=
      if cfg.docClient.Some? then cfg.docClient.value
      else if cfg.dynamodb.Some? then Wrapping(cfg.dynamodb.value)
      else m.table.client;
    m.(table := TableBinding(name, client))
  }

  /**
   * An empty configuration changes nothing, and configuring with the same
   * fields twice is the same as once. The second part holds because a client
   * built around a driver is identified by that driver: each `{dynamodb}`
   * configuration builds a new client object, which this model does not tell
   * apart from the previous one.
   */
  lemma ConfigureIdempotent(m: Model, cfg: TableConfig)
    ensures Configure(m, TableConfig(Null, None, None)) == m
    ensures Configure(Configure(m, cfg), cfg) == Configure(m, cfg)
  {
  }

  /** The configuration `{docClient: c}` every model gets when the shared client changes. */
  function BindTo(c: Client): TableConfig {
    TableConfig(Null, Some(c), None)
  }

  /** Every registered model rebound to the client, under the same names. */
  function RebindAll(models: map<string, Model>, c: Client): (r: map<string, Model>)
    ensures r.Keys == models.Keys
    ensures forall n :: n in models ==> r[n].table.client == c
    ensures forall n :: n in models ==> r[n].name == models[n].name && r[n].schema == models[n].schema
    ensures forall n :: n in models ==> r[n].table.name == models[n].table.name
  {
    map n | n in models :: Configure(models[n], BindTo(c))
  }

  /**
   * `documentClient(dc)`: a supplied client becomes the shared one, its
   * service the shared driver, and every registered model is rebound to it;
   * without one, the shared client is loaded. Returns the shared client.
   */
  function DocumentClient(st: State, dc: Option<Client>): (r: (State, Client))
    ensures r.0.docClient == Some(r.1) && r.0.order == st.order && r.0.models.Keys == st.models.Keys
    ensures dc.Some? ==> r.1 == dc.value && r.0.driver == Some(Service(dc.value))
    ensures dc.Some? ==> forall n :: n in r.0.models ==> r.0.models[n].table.client == dc.value
    ensures forall n :: n in st.models ==>
              && r.0.models[n].name == st.models[n].name && r.0.models[n].schema == st.models[n].schema
              && r.0.models[n].table.name == st.models[n].table.name
    ensures dc.None? ==> r.0.models == st.models
    ensures dc.None? && st.docClient.Some? ==> r.0 == st
  {
    if dc.Some? then
      (State(RebindAll(st.models, dc.value), st.order, dc, Some(Service(dc.value))), dc.value)
    else
      var loaded := LoadDocClient(st);
      (loaded, loaded.docClient.value)
  }

  /**
   * `dynamoDriver(d)`: a supplied driver becomes the shared one, a new client
   * is built around it and every registered model is rebound to that client;
   * without one, the shared driver is loaded. Returns the shared driver.
   */
  function DynamoDriver(st: State, d: Option<Driver>): (r: (State, Driver))
    ensures r.0.driver == Some(r.1) && r.0.order == st.order && r.0.models.Keys == st.models.Keys
    ensures d.Some? ==> r.1 == d.value && r.0.docClient == Some(Wrapping(d.value))
    ensures d.Some? ==> forall n :: n in r.0.models ==> r.0.models[n].table.client == Wrapping(d.value)
    ensures forall n :: n in st.models ==>
              && r.0.models[n].name == st.models[n].name && r.0.models[n].schema == st.models[n].schema
              && r.0.models[n].table.name == st.models[n].table.name
    ensures d.None? ==> r.0.models == st.models && r.0.docClient == st.docClient
    ensures d.None? && st.driver.Some? ==> r.0 == st
  {
    if d.Some? then
      var c := Wrapping(d.value);
      (State(RebindAll(st.models, c), st.order, Some(c), d), d.value)
    else
      var loaded := LoadDriver(st);
      (loaded, loaded.driver.value)
  }

  // ---- registration and lookup ----

  /** `addModel`: store under the name; a new name is appended to the key order, a known one keeps its place. */
  function AddModel(st: State, name: string, m: Model): (r: State)
    requires Valid(st)
    ensures Valid(r)
    ensures r.models == st.models[name := m]
    ensures name in st.models ==> r.order == st.order
    ensures name !in st.models ==> r.order == st.order + [name]
    ensures r.docClient == st.docClient && r.driver == st.driver
  {
    var order := if name in st.models then st.order else st.order + [name];
    State(st.models[name := m], order, st.docClient, st.driver)
  }

  /** Lookup of a registered model: the model stored under exactly that name, or none (`null`). */
  function Lookup(st: State, name: string): (r: Option<Model>)
    ensures r.Some? <==> name in st.models
    ensures r.Some? ==> r.value == st.models[name]
  {
    if name in st.models then Some(st.models[name]) else None
  }

  /** What `models[name] || null` evaluates to on a plain object. */
  datatype Found = OwnModel(model: Model) | InheritedMember(key: string) | NoModel

  /**
   * The lookup as the registry performs it: property access on a plain
   * object, which finds an inherited member when no model has that name.
   */
  function LookupAsWritten(st: State, name: string): (r: Found)
    ensures r.OwnModel? <==> name in st.models
    ensures r.OwnModel? ==> r.model == st.models[name]
    ensures r.NoModel? <==> name !in st.models && name !in InheritedMembers
  {
    if name in st.models then OwnModel(st.models[name])
    else if name in InheritedMembers then InheritedMember(name)
    else NoModel
  }

  /** On every name that is not an inherited member, the lookup as written and the own-key lookup agree. */
  lemma AsWrittenAgreesOnOrdinaryNames(st: State, name: string)
    requires name !in InheritedMembers
    ensures LookupAsWritten(st, name).OwnModel? <==> Lookup(st, name).Some?
    ensures Lookup(st, name).Some? ==> LookupAsWritten(st, name).model == Lookup(st, name).value
  {
  }

  /** After `reset`, `model("constructor")` is not `null` as written, though no model has that name. */
  lemma InheritedNameIsFound(st: State)
    ensures Lookup(Reset(st), "constructor") == None
    ensures LookupAsWritten(Reset(st), "constructor") == InheritedMember("constructor")
  {
  }

  /** `model(name, m)`: store `m` when it is given, then look the name up. */
  function ModelOp(st: State, name: string, m: Option<Model>): (r: (State, Option<Model>))
    requires Valid(st)
    ensures Valid(r.0)
    ensures m.Some? ==> r.1 == m && r.0 == AddModel(st, name, m.value)
    ensures m.None? ==> r.0 == st && r.1 == Lookup(st, name)
  {
    var next := if m.Some? then AddModel(st, name, m.value) else st;
    (next, Lookup(next, name))
  }

  /** Last write wins: after storing `m` under a name, looking it up gives `m`, and every other name is unaffected. */
  lemma LastWriteWins(st: State, name: string, first: Model, second: Model, other: string)
    requires Valid(st) && other != name
    ensures var s1 := ModelOp(st, name, Some(first)).0;
      var s2 := ModelOp(s1, name, Some(second)).0;
      && ModelOp(s2, name, None).1 == Some(second)
      && ModelOp(s2, other, None).1 == ModelOp(st, other, None).1
      && |s2.order| == |s1.order|
  {
  }

  /** `reset`: forget every model; the shared client and driver stay. */
  function Reset(st: State): (r: State)
    ensures Valid(r) && r.docClient == st.docClient && r.driver == st.driver
    ensures forall n :: Lookup(r, n).None?
  {
    State(map[], [], st.docClient, st.driver)
  }

  // ---- definition ----

  /** The argument `define` is given: a schema callback (no longer supported) or a definition. */
  datatype DefineArg = SchemaCallback | Definition(config: Config)

  datatype DefineError =
    /** "define no longer accepts schema callback, migrate to new api" */
    | CallbackNoLongerAccepted
    | SchemaRejected(error: Schema.CompileError)

  /**
   * `define(name, config)`: a callback is refused before any schema is built;
   * a definition is compiled, and a rejected one leaves the registry as it
   * was. An accepted one makes a model with the default table name, bound to
   * the shared client (created now if need be), and registers it under the
   * name, replacing any earlier model of that name.
   */
  function Define(st: State, name: string, arg: DefineArg): (r: (State, Result<Model, DefineError>))
    requires Valid(st)
    ensures Valid(r.0)
    ensures arg.SchemaCallback? ==> r == (st, Failure(CallbackNoLongerAccepted))
    ensures arg.Definition? && Schema.Compile(arg.config).Failure? ==>
              r == (st, Failure(SchemaRejected(Schema.Compile(arg.config).error)))
    ensures arg.Definition? && Schema.Compile(arg.config).Success? ==>
              && r.1.Success?
              && r.1.value.name == name
              && r.1.value.schema == Schema.Compile(arg.config).value
              && r.1.value.table.name == Str(DefaultTableName(name))
              && r.0.docClient.Some? && r.1.value.table.client == r.0.docClient.value
              && (st.docClient.Some? ==> r.0.docClient == st.docClient)
              && (st.driver.Some? ==> r.0.driver == st.driver)
              && Lookup(r.0, name) == Some(r.1.value)
              && r.0.models == st.models[name := r.1.value]
              && r.0.order == (if name in st.models then st.order else st.order + [name])
  {
    if arg.SchemaCallback? then (st, Failure(CallbackNoLongerAccepted))
    else
      match Schema.Compile(arg.config)
      case Failure(e) => (st, Failure(SchemaRejected(e)))
      case Success(schema) =>
        var loaded := LoadDocClient(st);
        var m := Model(name, schema, TableBinding(Str(DefaultTableName(name)), loaded.docClient.value));
        var (next, found) := ModelOp(loaded, name, Some(m));
        (next, Success(m))
  }

  /** Models defined before a change of shared client are bound to the new one afterwards. */
  lemma RebindReachesDefinedModels(st: State, name: string, c: Config, dc: Client)
    requires Valid(st) && Schema.Compile(c).Success?
    ensures var defined := Define(st, name, Definition(c)).0;
      var m := Lookup(DocumentClient(defined, Some(dc)).0, name);
      m.Some? && m.value.table.client == dc && m.value.table.name == Str(DefaultTableName(name))
  {
  }

  /** A model defined after a driver was set globally is bound to a client wrapping that driver. */
  lemma DefineUsesGlobalDriver(st: State, d: Driver, name: string, c: Config)
    requires Valid(st) && Schema.Compile(c).Success?
    ensures var driven := DynamoDriver(st, Some(d)).0;
      var r := Define(driven, name, Definition(c));
      && r.1.Success?
      && r.1.value.table.client == Wrapping(d)
      && Service(r.1.value.table.client) == d
      && r.0.driver == Some(d)
  {
  }

  // ---- provisioning every registered table ----

  /**
   * `createTables(options, callback)`: arguments normalised as for item
   * operations, then every registered model provisioned in key order with its
   * own entry of the options, against the scripted admin replies.
   */
  function CreateTables(st: State, options: Value, callback: Value, replies: seq<Provisioning.Reply>)
    : (r: (Delivery, Provisioning.Batch))
    requires Valid(st)
    ensures r.0.ViaPromise? <==> !Truthy(callback) && !options.Fn?
    ensures options.Fn? && !Truthy(callback) ==> r.0 == ViaCallback(options)
    ensures |r.1.runs| <= |st.order|
    ensures forall i :: 0 <= i < |r.1.runs| ==> r.1.runs[i].key == st.order[i] && r.1.runs[i].key in st.models
    ensures r.1.outcome.AllActive? <==> |r.1.runs| == |st.order| && Provisioning.ActiveUpTo(r.1.runs, |st.order|)
  {
    var call := Normalise(options, callback);
    (call.delivery, Provisioning.CreateTables(st.order, call.options, replies))
  }

  /** Each model is created with its own entry of the options; a callback given as the only argument means no options at all. */
  lemma CreateTablesPassesOwnOptions(st: State, options: Value, callback: Value, replies: seq<Provisioning.Reply>)
    requires Valid(st)
    ensures var b := CreateTables(st, options, callback, replies).1;
      forall i, c :: 0 <= i < |b.runs| && c in b.runs[i].calls && c.CreateTable? ==>
        c.options == Provisioning.OptionsFor(Normalise(options, callback).options, st.order[i])
    ensures options.Fn? && !Truthy(callback) ==>
      forall key :: Provisioning.OptionsFor(Normalise(options, callback).options, key) == Obj(map[])
  {
    Provisioning.BatchPassesOwnOptions(st.order, Normalise(options, callback).options, replies);
  }
}
