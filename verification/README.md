# dynamodb object mapper — a Dafny model of its core

This project models the core of a DynamoDB object mapper for JavaScript in
Dafny 4.11 and proves properties of the model. The core has four parts:

- **The schema compiler** (`lib/schema.js`). It checks a model definition
  against fixed meta-rules: a hash key is required, and local and global
  secondary indexes have their own constraints. It splits the indexes into a
  global and a local map keyed by name, and adds automatic timestamp fields.
  It walks the rule description tree to build the storage type tree of the
  model (`S`, `N`, `BOOL`, `B`, `L`, `DATE`, nested maps, element-wise lists),
  where a `dynamoType` annotation (`SS`, `NS`, `BS`) overrides the inferred
  tag. It also materialises default-generator values.
- **Table provisioning** (`lib/createTables.js`). For one table it issues a
  describe call, then creates the table when nothing comes back or updates
  it otherwise, and then polls describe until the status is `ACTIVE`. The
  first error aborts. The batch form provisions every registered model in
  key order and stops at the first model that does not become active.
- **The active-record envelope** (`lib/item.js`). This covers `get` and `set`
  (a lodash deep merge) and `toJSON`. It also covers what `save`, `update` and
  `destroy` do to the local attributes for each answer of the table.
- **The model registry** (`lib/index.js`). This covers `define`, `model`,
  `reset`, the default table name, per-model `config` overrides, rebinding of
  the shared document client, and argument normalisation for `createTables`.

Files and modules:

| file | module | contents |
|---|---|---|
| base.dfy | `Base` | `Option`, `Result` |
| json.dfy | `Json` | JavaScript values, truthiness, `cloneDeep` |
| merge.dfy | `Merge` | lodash `_.merge` on values and attribute maps |
| ruletree.dfy | `RuleTree` | the rule description tree (`type`, `keys`, `items`, `metas`, default) and the `types.*` helpers |
| wiretypes.dfy | `WireTypes` | `wireType`, `findDynamoTypeMetadata`, `parseDynamoTypes` |
| config.dfy | `ConfigRules` | the definition meta-rules (`configSchema`, `secondaryIndexSchema`) |
| schema.dfy | `Schema` | the `Schema` constructor, `invokeDefaultFunctions`, `applyDefaults` |
| provisioning.dfy | `Provisioning` | `createTable`, `waitTillActive` and the batch, as a state machine |
| calling.dfy | `Calling` | the `(options, callback)` normalisation and promise/callback choice |
| item.dfy | `ActiveRecord` | `Item` and its operations |
| registry.dfy | `Registry` | the registry of `lib/index.js` |

Collaborators are parameters of the model, and the model never calls them:

- **The table-admin service.** Every describe, create or update call consumes
  the next reply of a finite script. One poll is one step, and the
  1000 ms wait between polls is not modelled.
- **The item table.** The answer of `table.create`, `table.update` or
  `table.destroy` is passed in as a value.
- **The validation engine used by `applyDefaults`.** It is a function
  parameter.
- **Default generators.** Calling a function value is a function parameter
  from its id to its result.

## Model

| member | source | states |
|---|---|---|
| Json.CloneAttrs | lib/item.js:124-126 | a deep copy of an attribute map is equal to it |
| Merge.MergeValue | lib/item.js:29-33 | a scalar source replaces the slot; an object source gives an object with the keys of both, keeping target entries the source lacks; an array source gives an array as long as the longer of the two, keeping the target's extra elements |
| Merge.MergeAttrs | lib/item.js:29-33 | the merged keys are the union of both maps; keys only in the target are kept; a scalar in the patch wins; nested objects and arrays merge recursively |
| Merge.MergeIntoNullCopies | lib/item.js:16 | merging a value into nothing yields the value itself |
| Merge.MergeSelf | lib/item.js:29-33 | merging a value into itself changes nothing |
| Merge.MergeCoversSource | lib/item.js:29-33 | after a merge, every scalar reachable in the source sits at the same path in the result |
| Merge.MergeTwiceIsOnce | lib/item.js:29-33 | merging the same source a second time changes nothing |
| Merge.MergeEmptyPatch | lib/item.js:29-33 | merging an empty patch leaves the attributes as they are |
| Merge.MergeIntoEmpty | lib/item.js:16 | merging a map into `{}` yields that map |
| WireTypes.WireType | lib/schema.js:30-47 | `string`, `date`, `number`, `boolean`, `binary` and `array` get `S`, `DATE`, `N`, `BOOL`, `B` and `L`; every other kind gets no tag |
| WireTypes.WireTypeInjective | lib/schema.js:30-47 | distinct kinds get distinct tags, and no kind alone gives a set tag |
| WireTypes.FirstDynamoType | lib/schema.js:49-53 | the result is the `dynamoType` of the first annotation carrying a string one, and none exactly when no annotation does |
| WireTypes.FindDynamoTypeMetadata | lib/schema.js:49-59 | the first annotation with a string `dynamoType` gives that tag; with none, the tag of the rule's kind; never a nested map or list |
| WireTypes.ParseDynamoTypes | lib/schema.js:61-78 | an object rule gives a map with exactly the rule's keys (empty without keys); an unannotated array is `L` without items, and with items a list of the same length whose elements are the items' own type trees |
| WireTypes.AnnotationWins | lib/schema.js:49-59 | on any non-object rule, the first string `dynamoType` decides the tag whatever the kind |
| WireTypes.KindDecidesWithoutAnnotation | lib/schema.js:54-58 | without an annotation, a rule that is not an object or a bare array is tagged by its kind |
| WireTypes.SetHelpersAreSets | lib/schema.js:147-161 | `stringSet`, `numberSet` and `binarySet` are stored as `SS`, `NS` and `BS`, not as the `L` their array kind gives |
| WireTypes.IdentifierHelpersAreStrings | lib/schema.js:168-180 | `uuid` and `timeUUID` are strings with a generator default |
| WireTypes.FieldsOnlyFromObjects | lib/schema.js:62-71 | the type tree is a nested map exactly for object rules |
| WireTypes.PathCompositional | lib/schema.js:61-78 | the type at a nested field path is the type of the rule at that path, and the path exists in one tree exactly when it exists in the other |
| ConfigRules.CheckIndex | lib/schema.js:9-17 | reports no problem exactly when the index meets the index rules in the context of the model hash key |
| ConfigRules.CheckIndexes | lib/schema.js:23 | reports no problem exactly when every index from the position on is valid; otherwise it names the first bad index |
| ConfigRules.CheckConfig | lib/schema.js:19-28 | reports no problem exactly when the definition meets every meta-rule |
| ConfigRules.MissingHashKeyRejected | lib/schema.js:20 | a definition without a hash key is refused for that reason |
| ConfigRules.BadIndexRejected | lib/schema.js:10-16 | a bad index type, a local index without a range key, a local index naming another hash key, or a local index with capacity each make the definition invalid |
| ConfigRules.GlobalIndexCapacityAccepted | lib/schema.js:15-16 | a global index may declare capacity without a range key, and a local one may not |
| Schema.KeyBy | lib/schema.js:103-104 | every entry is an index of the requested type filed under its own name |
| Schema.KeyByExact | lib/schema.js:103-104 | a name is in the keyed map exactly when an index of the type carries it, and it maps to the last such index |
| Schema.StampName | lib/schema.js:115-128 | a non-empty string setting names the field; any non-string setting leaves the default name |
| Schema.TimestampFields | lib/schema.js:113-136 | a date field under each timestamp name whose setting is not `false`, and nothing else; empty exactly when both settings are `false` |
| Schema.AddKeys | lib/schema.js:138 | only object rules can be extended; new keys join the declared ones and replace same-named ones, other keys keep their rules; with no new key the rule is unchanged |
| Schema.AddKeysAsWritten | lib/schema.js:130-138 | with no new key, the extended rule allows no key at all, dropping every declared one; otherwise as `AddKeys` |
| Schema.ModelRule | lib/schema.js:107-141 | with timestamps off, the definition's own rule; with them on, it fails exactly for a non-object rule and otherwise holds the declared fields plus a date field per timestamp |
| Schema.ModelRuleAsWritten | lib/schema.js:107-141 | differs from `ModelRule` only when timestamps are on and both timestamp settings are `false` |
| Schema.BothStampsOffDropsFields | lib/schema.js:130-138 | with timestamps on and both settings `false`, the constructor as written ends with an empty type tree for a definition declaring a field, and the corrected rule keeps that field |
| Schema.BothStampsOffLikeTimestampsOff | lib/schema.js:113-141 | in the corrected rule, turning both timestamp fields off is the same as turning timestamps off |
| Schema.Compile | lib/schema.js:80-143 | succeeds exactly when the definition is valid (and the rule can be extended); an invalid one fails with the first violated rule; on success the hash key and range key are the definition's, and the rule tree and type tree follow from it |
| Schema.IndexesPartitioned | lib/schema.js:102-105 | the global map holds exactly the global indexes and the local map exactly the local ones, keyed by name |
| Schema.LastIndexOfANameKept | lib/schema.js:103 | each entry of the global map is one of the definition's indexes |
| Schema.DistinctNamesDisjoint | lib/schema.js:102-105 | when index names are distinct, no name is both a global and a local index |
| Schema.SharedNameInBothMaps | lib/schema.js:102-105 | a global and a local index that share a name put that name in both maps |
| Schema.TimestampFieldsInTypeTree | lib/schema.js:113-142 | with timestamps on, a `DATE` field appears under the custom or default name unless its setting is `false`, and every other declared field keeps the type its rule gives it |
| Schema.NoTimestampFieldsWhenOff | lib/schema.js:113 | with timestamps off, the rule tree is the definition's own |
| Schema.CreatedAtFalseAddsOnlyUpdatedAt | lib/schema.js:130-136 | `createdAt: false` with a custom `updatedAt` gives only the updated-at field |
| Schema.HashKeyWithoutRuleIsUntracked | lib/schema.js:107-111 | a definition with only a hash key compiles to an empty type tree |
| Schema.InvokeDefaults | lib/schema.js:189-196 | a function value becomes its call result; a plain object keeps its keys; every other value is unchanged |
| Schema.InvokeDefaultFunctions | lib/schema.js:188-198 | keeps the key set, replaces each function value by its result, processes plain objects recursively, and leaves other values alone |
| Schema.DefaultAtPath | lib/schema.js:188-198 | a function value at any object path is replaced, at the same path, by its call result |
| Schema.SuppliedValuesKept | lib/schema.js:188-198 | a value with no pending default passes through unchanged |
| Schema.DefaultsResolved | lib/schema.js:188-198 | when generators return plain data, no default is left pending |
| Schema.DefaultsIdempotent | lib/schema.js:188-198 | materialising defaults twice is the same as once |
| Schema.ApplyDefaults | lib/schema.js:200-203 | the validated keys are kept, supplied values are unchanged, and generator values are replaced by their results |
| Provisioning.Step | lib/createTables.js:11-48 | one call consumes one reply: a describe in checking decides create (no data) or update; a create or update fails on its error or goes on to polling; only a step from the creating phase issues a create |
| Provisioning.Run | lib/createTables.js:8-52 | the machine stops in a terminal phase or when the script runs out; every call consumes exactly one reply; the create options never change |
| Provisioning.Provision | lib/createTables.js:8-9 | the options used are the given ones when truthy and `{}` otherwise; every call consumes one reply |
| Provisioning.RunExtends | lib/createTables.js:8-52 | calls are only appended, and replies are consumed from the front in order |
| Provisioning.PollLoop | lib/createTables.js:33-52 | polling describes once per reply up to the first stopping reply and ends in the phase it gives (`ACTIVE` is success, an error is failure, no data is a crash); without such a reply it keeps polling |
| Provisioning.FirstStop | lib/createTables.js:36-48 | the position of the first reply that stops polling |
| Provisioning.FirstTwoSteps | lib/createTables.js:11-30 | the first call is a describe; the second is a create with the options when the describe returned no data, else an update; then the machine polls or has failed with that error |
| Provisioning.CreateOrUpdate | lib/createTables.js:11-30 | exactly one create or update, decided by the first describe's data only, and every later call is a describe |
| Provisioning.ChangeErrorStopsAtOnce | lib/createTables.js:13-25 | a failing create or update is reported at once after exactly two calls |
| Provisioning.ShortScriptNeverActive | lib/createTables.js:11-30 | no table becomes active before its create or update has answered |
| Provisioning.SuccessMeansActiveSeen | lib/createTables.js:34-48 | success means the last describe reported `ACTIVE`, after at least one poll, and every earlier poll kept polling |
| Provisioning.CreateThenPoll | lib/createTables.js:8-52 | for a missing table whose create succeeds, the first stopping poll reply decides the phase, after one describe, the create and one describe per poll up to it; later replies are left unread |
| Provisioning.CreateThenPollScenario | lib/createTables.js:33-52 | a missing table, a successful create, `k` pending polls and then `ACTIVE` give success after `k + 2` describes and one create |
| Provisioning.PollErrorScenario | lib/createTables.js:38-41 | a describe error while polling ends in that error, with no further describe |
| Provisioning.OptionsFor | lib/createTables.js:56 | the per-model options are `config[key]` when that is truthy, `{}` otherwise |
| Provisioning.CreateTables | lib/createTables.js:54-58 | models are provisioned in key order; the batch succeeds exactly when all became active; otherwise the last model tried names the failure and no later model was tried |
| Provisioning.CreatesCarryOptions | lib/createTables.js:13 | every create a machine issues carries its own options |
| Provisioning.BatchPassesOwnOptions | lib/createTables.js:55-56 | each model is created with its own entry of the batch options |
| Provisioning.SecondCreateFailsScenario | lib/createTables.js:54-58 | when the second model's create fails, the first is active, the batch reports the second one's error, and the third is never tried |
| Calling.Deliver | lib/item.js:39-47 | a promise is used exactly when no callback is given |
| Calling.Normalise | lib/item.js:62-81 | a function given as the only argument becomes the callback with options `{}`; the options that go on are truthy; a promise is used exactly when no callback is supplied either way |
| ActiveRecord.Set | lib/item.js:29-33 | the table binding stays; the keys are the union; untouched fields keep their values; scalars of the patch win |
| ActiveRecord.NewItem | lib/item.js:11-17 | a new item holds exactly the given attributes (`{}` when missing) and the given table |
| ActiveRecord.Get | lib/item.js:21-27 | an empty key gives the whole map; a key the item has gives that field; any other key gives an inherited `Object.prototype` member exactly when it names one, and `undefined` otherwise |
| ActiveRecord.GetOwn | lib/item.js:21-27 | the own-field reading: an empty key gives the whole map, any other key the field or `undefined`, never an inherited member |
| ActiveRecord.GetAgreesOnOwnFields | lib/item.js:21-27 | both readings agree on every field the item has and on every name that is not an inherited member |
| ActiveRecord.GetFindsInheritedMember | lib/item.js:21-27 | on a new item without attributes, `get("constructor")` gives an inherited member where the own-field reading gives `undefined` |
| ActiveRecord.GetAfterSet | lib/item.js:21-33 | a field read after `set` is the scalar the patch wrote, or the old value of a field the patch left alone |
| ActiveRecord.SetIsIdempotent | lib/item.js:29-33 | an empty patch, or the same patch applied a second time, changes nothing |
| ActiveRecord.Save | lib/item.js:35-60 | sends the current attributes; an error leaves the item unchanged and is the only thing reported; success merges the returned item's attributes and reports the item; a missing item throws |
| ActiveRecord.SaveMergesReturnedItem | lib/item.js:49-57 | after a successful save the item has every old and every returned field, and the returned scalars win |
| ActiveRecord.Update | lib/item.js:62-96 | sends the attributes with the normalised options; an error leaves the item unchanged; a returned item is merged; no item is a success with nothing merged |
| ActiveRecord.Destroy | lib/item.js:98-122 | sends the attributes and normalised options, passes the table's answer on, and never changes the item |
| ActiveRecord.AttrsChangeOnlyOnReturnedItem | lib/item.js:49-57 | local attributes change only on a successful save or update that returns an item, and then both change them the same way |
| ActiveRecord.ToJson | lib/item.js:124-126 | the serialised form equals the attributes |
| Registry.ToLower | lib/index.js:71 | lower-casing keeps the length and maps every letter to lower case |
| Registry.DefaultTableName | lib/index.js:71 | the default table name is the lower-cased model name followed by `s` |
| Registry.TableNameIgnoresCase | lib/index.js:71 | names that differ only in letter case get the same table |
| Registry.AccountTableName | lib/index.js:71 | `Account` gets the table `accounts` |
| Registry.LoadDriver | lib/index.js:27-38 | the driver is created only when none exists |
| Registry.LoadDocClient | lib/index.js:58-66 | the shared client is created only when none exists, and then it wraps the shared driver; an existing driver is kept |
| Registry.Configure | lib/index.js:114-128 | a truthy table name replaces the configured one; a document client is preferred over a driver; with neither the client stays |
| Registry.ConfigureIdempotent | lib/index.js:114-128 | an empty configuration changes nothing, and the same configuration twice is the same as once |
| Registry.RebindAll | lib/index.js:52-56 | every registered model is bound to the new client, with names and schemas kept |
| Registry.DocumentClient | lib/index.js:40-50 | a supplied client becomes shared, its service becomes the driver, and every registered model is rebound to it, keeping its name, schema and table name; without one, the shared client is loaded and the models are unchanged |
| Registry.DynamoDriver | lib/index.js:27-38 | a supplied driver becomes shared and every registered model is rebound to a client wrapping it, keeping its name, schema and table name; without one, the driver is loaded and the models are unchanged |
| Registry.AddModel | lib/index.js:133-137 | stores the model under the name; a new name joins the end of the key order, and a known one keeps its place |
| Registry.Lookup | lib/index.js:164 | the model stored under exactly that name, or `null` |
| Registry.LookupAsWritten | lib/index.js:164 | property access on a plain object also finds inherited members for unregistered names |
| Registry.AsWrittenAgreesOnOrdinaryNames | lib/index.js:164 | on names that are not inherited members, both lookups agree |
| Registry.InheritedNameIsFound | lib/index.js:139-165 | after `reset`, `model('constructor')` is not `null` as written |
| Registry.ModelOp | lib/index.js:159-165 | `model(name, m)` stores `m` and returns it; `model(name)` only looks up |
| Registry.LastWriteWins | lib/index.js:133-137 | a second model under a name replaces the first, and other names are unaffected |
| Registry.Reset | lib/index.js:139-141 | after `reset` no name finds a model |
| Registry.Define | lib/index.js:147-157 | a schema callback is refused before anything is built; a rejected definition leaves the registry unchanged; an accepted one registers a model with the default table name, bound to the shared client, which is kept if it already exists (as is the driver); only that name's entry changes, and a new name joins the end of the key order |
| Registry.RebindReachesDefinedModels | lib/index.js:40-56 | a model defined before a change of client is bound to the new client afterwards |
| Registry.DefineUsesGlobalDriver | test/index-test.js:135-142 | a model defined after a driver was set globally is bound to a client wrapping that driver |
| Registry.CreateTables | lib/index.js:167-188 | a promise exactly when no callback is supplied; registered models are provisioned in key order |
| Registry.CreateTablesPassesOwnOptions | lib/index.js:167-188 | each model is created with its own entry of the normalised options, which is `{}` when a function was the only argument |

## Left out

- **Value model.** Floating-point numbers, `undefined` as distinct from
  missing, `Date` and `Buffer` objects, and class instances are not
  modelled. Numbers are integers, and a function is an opaque token.
- **The validation engine.** Its type conversions are not modelled: numeric
  strings for capacities and `'true'`/`'false'` strings for booleans. Its
  error messages and the `annotate()` text are not modelled either. Only the
  first violated rule is reported, in a fixed order.
- **The `schema` entry.** When `schema` is given as a non-rule value, it is
  modelled only as a map of field rules or as a single rule.
- **`Schema.prototype.validate`** (lib/schema.js:182-186) is a parameter of
  `ApplyDefaults`.
- **UUID generation.** The format and freshness of generated identifiers are
  not modelled. A generator is an opaque function value.
- **Merge.MergeValue:** when an object source is merged into an array
  target, lodash keeps the array and adds the source's keys to it as
  properties. The model replaces the array with an object instead, because
  arrays with extra named properties are not values of the model. When an
  array source is merged into an array-like object target (one with a
  `length` key), lodash starts from a copy of the target's elements; the model
  starts from an empty array, since array-likeness is not modelled.
- **Merge.MergeAttrs:** lodash skips a source key `__proto__`, and a key
  `constructor` whose value is a function, so neither reaches the result
  (`set({constructor: fn})` adds no field). The model merges both like any
  other key, because prototypes are not modelled. This also holds for `Merge.MergeValue` on
  objects.
- **Table-admin polling.**
  - Timers, the 1000 ms wait and the `async` plumbing are not modelled.
  - Polling is unbounded in the source. Here it is shown over finite
    scripts, and a script that runs out leaves the machine waiting.
  - A poll answered with neither error nor data throws in the source and
    never calls back. It is modelled as the phase `Crashed`.
- **Promises and EventEmitter.** Promise objects are not modelled; only
  whether a promise or a callback is used. EventEmitter inheritance is also
  out (lib/item.js:19).
- **Named collaborators.** `lib/table.js`, `lib/serializer.js` and
  `lib/batch.js` are not part of this model: query, scan, batch reads and
  serialisation. The table's configured name is taken as the default table
  name, and the schema's own `tableName` setting is only recorded.
- **Foreign and host services.**
  - The AWS SDK and document-client construction are tokens (`Client`,
    `Driver`).
  - `dynamo.Set` (lib/index.js:143-145) is not modelled.
  - bunyan logging is not modelled.
  - The `Model.*` delegations to the table in lib/index.js:83-107 are not
    modelled.
- **`Registry.ToLower`:** only ASCII letters are lower-cased. JavaScript
  `toLowerCase` is Unicode-aware.
- **Registry.CreateTables:** the key order is the order in which names were
  first registered. JavaScript enumerates integer-like keys first, and that
  is not modelled.
- **The `config` argument.** `Registry.Configure` takes only its recognised
  fields. Per-model batch options are looked up as own keys, so inherited
  properties of an options object are not modelled.
- **The `__proto__` name.** Registering a model under `__proto__` replaces
  the registry object's prototype instead of adding a key. This is not
  modelled: `AddModel` treats every name as an own key.
- **`define` with a missing config** is modelled as the empty definition,
  which fails because the hash key is missing.

## Notes

- **Hash key in the type tree.** The type tree is built from the rule tree
  alone (lib/schema.js:107-111, 142). So the hash key has an entry only when
  the rule tree declares a field for it, and a definition with only a hash
  key gives an empty map (`Schema.HashKeyWithoutRuleIsUntracked`).
- **Index names.** The global and local index maps are disjoint only when
  index names are distinct. Nothing stops a global and a local index from
  sharing a name (`Schema.SharedNameInBothMaps`, and
  `Schema.DistinctNamesDisjoint` with its requirement).
- **Describe errors.** The describe error before a create or update is not
  inspected (lib/createTables.js:11-12). A failed describe with no data leads
  to a create attempt.

## Findings

| source | as written | input that shows it | evidently intended | confidence | as-written member | corrected member |
|---|---|---|---|---|---|---|
| lib/index.js:164 | `dynamo.models[name] \|\| null` reads a property of a plain object, so names of `Object.prototype` members find inherited functions | `reset()` then `model('constructor')` returns the `Object` constructor instead of `null` | a lookup of own keys only, giving `null` for every unregistered name | medium, not executed | Registry.LookupAsWritten (counterexample `Registry.InheritedNameIsFound`) | Registry.Lookup (used by `ModelOp`, `Define` and the lemmas) |
| lib/schema.js:130-138 | with timestamps on and both `createdAt` and `updatedAt` set to `false`, the extra keys are empty and `keys({})` then allows no key at all | `{hashKey: 'id', timestamps: true, createdAt: false, updatedAt: false, schema: {name: string}}` compiles to an empty type tree, and `name` is no longer accepted | with no timestamp field to add, the rule is left as it is | medium, not executed | Schema.AddKeysAsWritten, Schema.ModelRuleAsWritten (counterexample `Schema.BothStampsOffDropsFields`) | Schema.AddKeys, Schema.ModelRule (used by `Compile`; `Schema.BothStampsOffLikeTimestampsOff`) |
| lib/item.js:23 | `this.attrs[key]` reads a property of a plain object, so names of `Object.prototype` members find inherited functions | `new Item().get('constructor')` returns the `Object` constructor instead of `undefined` | a read of the item's own fields only | low, not executed | ActiveRecord.Get (counterexample `ActiveRecord.GetFindsInheritedMember`) | ActiveRecord.GetOwn (used by `ActiveRecord.GetAfterSet`) |
