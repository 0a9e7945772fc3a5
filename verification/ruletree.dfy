/**
 * The shape of a field rule as the validation library describes it: a kind
 * (`"object"`, `"array"`, `"string"`, ...), child rules for object keys and array
 * items, free-form metadata entries, and an optional default value (a function
 * value when the default is generated on demand).
 */
module RuleTree {
  import opened Base
  import opened Json

  /** One `.meta({...})` annotation attached to a rule. */
  datatype Meta = Meta(entries: map<string, Value>)

  /** The `keys` of an object rule; a bare `object()` declares none. */
  datatype RuleKeys = Undeclared | Declared(rules: map<string, Rule>)

  /** The `items` of an array rule; a bare `array()` declares none. */
  datatype RuleItems = NoItems | ItemRules(rules: seq<Rule>)

  datatype Rule = Rule(
    kind: string,
    keys: RuleKeys,
    items: RuleItems,
    metas: Option<seq<Meta>>,
    defaultValue: Option<Value>)

  /** A rule of the given kind with no children, metadata or default. */
  function Plain(kind: string): Rule {
    Rule(kind, Undeclared, NoItems, None, None)
  }

  /** An object rule, with or without declared keys. */
  function ObjectRule(keys: RuleKeys): Rule {
    Rule("object", keys, NoItems, None, None)
  }

  /** The rule stored for an automatic timestamp field. */
  function DateRule(): Rule {
    Plain("date")
  }

  /** An array-of-`items` rule annotated with the storage set type `tag`. */
  function SetRule(items: seq<Rule>, tag: string): Rule {
    Rule("array", Undeclared, ItemRules(items), Some([Meta(map["dynamoType" := Str(tag)])]), None)
  }

  /** Default generators are opaque function values; these identify the two the library attaches. */
  const RandomIdGenerator: nat := 4
  const TimeIdGenerator: nat := 1

  /** `types.stringSet()`: an array of strings stored as a string set. */
  function StringSet(): Rule {
    SetRule([Plain("string")], "SS")
  }

  /** `types.numberSet()`: an array of numbers stored as a number set. */
  function NumberSet(): Rule {
    SetRule([Plain("number")], "NS")
  }

  /** `types.binarySet()`: an array of binaries or strings stored as a binary set. */
  function BinarySet(): Rule {
    SetRule([Plain("binary"), Plain("string")], "BS")
  }

  /** `types.uuid()`: a string whose default is a freshly generated random identifier. */
  function Uuid(): Rule {
    Rule("string", Undeclared, NoItems, None, Some(Fn(RandomIdGenerator)))
  }

  /** `types.timeUUID()`: a string whose default is a freshly generated time-ordered identifier. */
  function TimeUuid(): Rule {
    Rule("string", Undeclared, NoItems, None, Some(Fn(TimeIdGenerator)))
  }
}
