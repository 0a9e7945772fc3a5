/**
 * The active-record envelope around one stored item: an attribute map bound
 * to a table. The table's `create`, `update` and `destroy` are a collaborator
 * whose answer is given as a parameter; what is modelled is what each answer
 * does to the local attributes and what the caller is told.
 */
module ActiveRecord {
  import opened Base
  import opened Json
  import opened Merge
  import opened Calling

  /** The table an item belongs to, as an opaque handle. */
  type TableId = nat

  datatype Item = Item(attrs: Attrs, table: TableId)

  /**
   * What `get` hands back: the whole attribute map, one field (`None` is
   * `undefined`), or a member the attribute object inherits from `Object.prototype`.
   */
  datatype Got = Whole(attrs: Attrs) | Field(value: Option<Value>) | Inherited(key: string)

  /**
   * The table's answer to a store call: a truthy `err` is a failure; `item`
   * is the attribute map of the item it passes back, `None` for `null`.
   */
  datatype StoreReply = StoreReply(err: Value, item: Option<Attrs>)

  /** What the caller is told. */
  datatype Outcome =
    | Rejected(error: Value)
    | Resolved(item: Option<Attrs>)
    /** The reply handler threw (it read the attributes of a missing item); the caller is never told anything. */
    | Thrown

  /**
   * The effect of one store operation: the item afterwards, the attributes
   * and options sent to the table, the outcome, and how it is delivered.
   */
  datatype Effect = Effect(item: Item, sent: Attrs, options: Value, outcome: Outcome, delivery: Delivery)

  /** `set`: a deep merge of the patch into a copy of the attributes; the table binding stays. */
  function Set(item: Item, patch: Attrs): (r: Item)
    ensures r.table == item.table && r.attrs == MergeAttrs(item.attrs, patch)
    ensures r.attrs.Keys == item.attrs.Keys + patch.Keys
    ensures forall k :: k in item.attrs && k !in patch ==> r.attrs[k] == item.attrs[k]
    ensures forall k :: k in patch && Scalar(patch[k]) ==> r.attrs[k] == patch[k]
    ensures forall k :: k in patch ==> Covers(r.attrs[k], patch[k])
  {
    var copy := MergeAttrs(map[], item.attrs);
    MergeIntoEmpty(item.attrs);
    var r := Item(MergeAttrs(copy, patch), item.table);
    forall k | k in patch
      ensures Covers(r.attrs[k], patch[k])
    {
      if k in item.attrs {
        MergeCoversSource(item.attrs[k], patch[k]);
      } else {
        MergeCoversSource(Null, patch[k]);
      }
    }
    r
  }

  /** Construction: the given attributes (`{}` when missing), bound to the table. */
  function NewItem(attrs: Option<Attrs>, table: TableId): (r: Item)
    ensures r.table == table
    ensures r.attrs == (if attrs.Some? then attrs.value else map[])
  {
    MergeIntoEmpty(attrs.GetOr(map[]));
    Set(Item(map[], table), attrs.GetOr(map[]))
  }

  /**
   * `get(key)` as written: a truthy key reads a property of the plain
   * attribute object, which finds an inherited member when the item has no
   * field of that name; a missing or empty key gives the whole map.
   */
  function Get(item: Item, key: string): (r: Got)
    ensures key == "" <==> r.Whole?
    ensures r.Whole? ==> r.attrs == item.attrs
    ensures key != "" && key in item.attrs ==> r == Field(Some(item.attrs[key]))
    ensures key != "" && key !in item.attrs ==> (r.Inherited? <==> key in InheritedMembers)
    ensures r.Inherited? ==> r.key == key
  {
    if key == "" then Whole(item.attrs)
    else if key in item.attrs then Field(Some(item.attrs[key]))
    else if key in InheritedMembers then Inherited(key)
    else Field(None)
  }

  /** `get(key)` reading own fields only: a field of the item, or `undefined`. */
  function GetOwn(item: Item, key: string): (r: Got)
    ensures !r.Inherited?
    ensures key == "" <==> r.Whole?
    ensures r.Whole? ==> r.attrs == item.attrs
    ensures r.Field? ==> (r.value.Some? <==> key in item.attrs)
    ensures r.Field? && key in item.attrs ==> r.value == Some(item.attrs[key])
  {
    if key != "" then Field(if key in item.attrs then Some(item.attrs[key]) else None)
    else Whole(item.attrs)
  }

  /** Both readings agree on every key that is not an inherited member's name, and on every field the item has. */
  lemma GetAgreesOnOwnFields(item: Item, key: string)
    requires key !in InheritedMembers || key in item.attrs
    ensures Get(item, key) == GetOwn(item, key)
  {
  }

  /** A new item without attributes answers `get("constructor")` with an inherited member, not `undefined`. */
  lemma GetFindsInheritedMember(table: TableId)
    ensures Get(NewItem(None, table), "constructor") == Inherited("constructor")
    ensures GetOwn(NewItem(None, table), "constructor") == Field(None)
  {
  }

  /** A field read back after `set` holds a scalar the patch wrote, or the old value of a field the patch left alone. */
  lemma GetAfterSet(item: Item, patch: Attrs, key: string)
    requires key != ""
    ensures key in patch && Scalar(patch[key]) ==> GetOwn(Set(item, patch), key) == Field(Some(patch[key]))
    ensures key !in patch ==> GetOwn(Set(item, patch), key) == GetOwn(item, key)
  {
  }

  /** Setting an empty patch, or the same patch twice, leaves the item as it is. */
  lemma SetIsIdempotent(item: Item, patch: Attrs)
    ensures Set(item, map[]) == item
    ensures Set(Set(item, patch), patch) == Set(item, patch)
  {
    MergeEmptyPatch(item.attrs);
    MergeAttrsTwiceIsOnce(item.attrs, patch);
  }

  lemma MergeAttrsTwiceIsOnce(a: Attrs, p: Attrs)
    ensures MergeAttrs(MergeAttrs(a, p), p) == MergeAttrs(a, p)
  {
    var once := MergeAttrs(a, p);
    var twice := MergeAttrs(once, p);
    forall k | k in once
      ensures twice[k] == once[k]
    {
      if k in p {
        var before := if k in a then a[k] else Null;
        assert once[k] == MergeValue(before, p[k]);
        MergeTwiceIsOnce(before, p[k]);
      }
    }
  }

  /** `save` with an optional callback, given the table's answer to `create(attrs)`. */
  function Save(item: Item, callback: Value, reply: StoreReply): (r: Effect)
    ensures r.sent == item.attrs && r.delivery == Deliver(callback)
    ensures Truthy(reply.err) ==> r.item == item && r.outcome == Rejected(reply.err)
    ensures !Truthy(reply.err) && reply.item.Some? ==>
              r.item == Set(item, reply.item.value) && r.outcome == Resolved(reply.item)
    ensures !Truthy(reply.err) && reply.item.None? ==> r.item == item && r.outcome == Thrown
  {
    var delivery := Deliver(callback);
    if Truthy(reply.err) then Effect(item, item.attrs, Null, Rejected(reply.err), delivery)
    else if reply.item.None? then Effect(item, item.attrs, Null, Thrown, delivery)
    else Effect(Set(item, reply.item.value), item.attrs, Null, Resolved(reply.item), delivery)
  }

  /** After a successful save the item holds every field it had and every field the table returned, the returned scalars winning. */
  lemma SaveMergesReturnedItem(item: Item, callback: Value, a: Attrs)
    ensures var r := Save(item, callback, StoreReply(Null, Some(a)));
      && r.outcome == Resolved(Some(a))
      && r.item.table == item.table
      && r.item.attrs.Keys == item.attrs.Keys + a.Keys
      && forall k :: k in a && Scalar(a[k]) ==> r.item.attrs[k] == a[k]
  {
  }

  /** `update(options, callback)`, given the table's answer to `update(attrs, options)`. */
  function Update(item: Item, options: Value, callback: Value, reply: StoreReply): (r: Effect)
    ensures r.sent == item.attrs && Truthy(r.options)
    ensures r.options == Normalise(options, callback).options && r.delivery == Normalise(options, callback).delivery
    ensures Truthy(reply.err) ==> r.item == item && r.outcome == Rejected(reply.err)
    ensures !Truthy(reply.err) ==> r.outcome == Resolved(reply.item)
    ensures !Truthy(reply.err) && reply.item.Some? ==> r.item == Set(item, reply.item.value)
    ensures !Truthy(reply.err) && reply.item.None? ==> r.item == item
  {
    var call := Normalise(options, callback);
    if Truthy(reply.err) then Effect(item, item.attrs, call.options, Rejected(reply.err), call.delivery)
    else if reply.item.None? then Effect(item, item.attrs, call.options, Resolved(None), call.delivery)
    else Effect(Set(item, reply.item.value), item.attrs, call.options, Resolved(reply.item), call.delivery)
  }

  /** `destroy(options, callback)`: the table's answer is passed straight to the caller. */
  function Destroy(item: Item, options: Value, callback: Value, reply: StoreReply): (r: Effect)
    ensures r.item == item && r.sent == item.attrs
    ensures r.options == Normalise(options, callback).options && r.delivery == Normalise(options, callback).delivery
    ensures r.outcome == (if Truthy(reply.err) then Rejected(reply.err) else Resolved(reply.item))
  {
    var call := Normalise(options, callback);
    Effect(item, item.attrs, call.options,
           if Truthy(reply.err) then Rejected(reply.err) else Resolved(reply.item), call.delivery)
  }

  /** Local attributes change only through a successful save or update that returns an item. */
  lemma AttrsChangeOnlyOnReturnedItem(item: Item, options: Value, callback: Value, reply: StoreReply)
    ensures Destroy(item, options, callback, reply).item == item
    ensures Truthy(reply.err) || reply.item.None? ==>
              Save(item, callback, reply).item == item && Update(item, options, callback, reply).item == item
    ensures !Truthy(reply.err) && reply.item.Some? ==>
              Save(item, callback, reply).item == Update(item, options, callback, reply).item
  {
  }

  /** `toJSON`: a deep copy of the attributes, which is equal to them; the table binding is not part of it. */
  function ToJson(item: Item): (r: Attrs)
    ensures r == item.attrs
  {
    CloneAttrs(item.attrs)
  }
}
