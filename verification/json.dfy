/**
 * JavaScript values as they appear in attribute maps, configuration objects and
 * option arguments. Numbers are integers; a function value is an opaque token
 * identified by `id`, whose call result is supplied from outside when needed.
 */
module Json {

  datatype Value =
    | Null
    | Bool(b: bool)
    | Num(n: int)
    | Str(s: string)
    | Arr(elems: seq<Value>)
    | Obj(fields: map<string, Value>)
    | Fn(id: nat)

  /** An attribute map: a plain object keyed by field name. */
  type Attrs = map<string, Value>

  /** JavaScript truthiness: `null`, `false`, `0` and `""` are falsy, everything else is truthy. */
  predicate Truthy(v: Value) {
    match v
    case Null => false
    case Bool(b) => b
    case Num(n) => n != 0
    case Str(s) => s != ""
    case _ => true
  }

  /**
   * The members every plain object inherits from `Object.prototype`: reading
   * one of these names from an object that lacks it as an own key yields a
   * truthy value rather than `undefined`.
   */
  const InheritedMembers: set<string> :=
    {"constructor", "toString", "toLocaleString", "valueOf", "hasOwnProperty", "isPrototypeOf",
     "propertyIsEnumerable", "__proto__", "__defineGetter__", "__defineSetter__",
     "__lookupGetter__", "__lookupSetter__"}

  /** A non-empty string, the only strings a `Joi.string()` rule accepts. */
  predicate NonEmptyString(v: Value) {
    v.Str? && v.s != ""
  }

  /**
   * lodash `cloneDeep` applied to a value nested inside an object: plain objects
   * and arrays are rebuilt member by member, everything else (functions
   * included) is kept as it is.
   */
  function Clone(v: Value): Value
    decreases v
  {
    match v
    case Obj(m) => Obj(map k | k in m :: Clone(m[k]))
    case Arr(a) => Arr(seq(|a|, i requires 0 <= i < |a| => Clone(a[i])))
    case _ => v
  }

  /** A deep copy is equal, as a value, to what it copies. */
  lemma {:induction false} CloneIsIdentity(v: Value)
    ensures Clone(v) == v
    decreases v
  {
    match v
    case Obj(m) =>
      forall k | k in m
        ensures Clone(m[k]) == m[k]
      {
        CloneIsIdentity(m[k]);
      }
      assert (map k | k in m :: Clone(m[k])) == m;
    case Arr(a) =>
      forall i | 0 <= i < |a|
        ensures Clone(a[i]) == a[i]
      {
        CloneIsIdentity(a[i]);
      }
      assert seq(|a|, i requires 0 <= i < |a| => Clone(a[i])) == a;
    case _ =>
  }

  /** Deep copy of an attribute map, as `_.cloneDeep(attrs)` returns it. */
  function CloneAttrs(m: Attrs): (r: Attrs)
    ensures r == m
  {
    CloneIsIdentity(Obj(m));
    Clone(Obj(m)).fields
  }
}
