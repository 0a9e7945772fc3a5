/**
 * lodash `_.merge` over JSON-like values: plain objects are merged key by key
 * and arrays index by index, recursively; any other source value replaces the
 * destination. A missing destination behaves like `Null`, so merging into
 * nothing deep-copies the source.
 */
module Merge {
  import opened Json

  function Max(a: nat, b: nat): nat {
    if a < b then b else a
  }

  /** The destination's entry under `k` when the destination is an object, `Null` otherwise. */
  function Field(dst: Value, k: string): Value {
    if dst.Obj? && k in dst.fields then dst.fields[k] else Null
  }

  /** The destination's element at `i` when the destination is an array, `Null` otherwise. */
  function Elem(dst: Value, i: nat): Value {
    if dst.Arr? && i < |dst.elems| then dst.elems[i] else Null
  }

  /** The value `_.merge` leaves in a slot holding `dst` after merging `src` into it. */
  function MergeValue(dst: Value, src: Value): (r: Value)
    ensures !src.Obj? && !src.Arr? ==> r == src
    ensures src.Obj? ==> r.Obj? && r.fields.Keys == (if dst.Obj? then dst.fields.Keys else {}) + src.fields.Keys
    ensures src.Obj? && dst.Obj? ==> forall k :: k in dst.fields && k !in src.fields ==> r.fields[k] == dst.fields[k]
    ensures src.Arr? ==> r.Arr? && |r.elems| == Max(if dst.Arr? then |dst.elems| else 0, |src.elems|)
    ensures src.Arr? && dst.Arr? ==> forall i :: |src.elems| <= i < |dst.elems| ==> r.elems[i] == dst.elems[i]
    decreases src
  {
    match src
    case Obj(s) =>
      var d := if dst.Obj? then dst.fields else map[];
      Obj(map k | k in d.Keys + s.Keys :: if k in s then MergeValue(Field(dst, k), s[k]) else d[k])
    case Arr(s) =>
      var d := if dst.Arr? then dst.elems else [];
      var n := Max(|d|, |s|);
      Arr(seq(n, i requires 0 <= i < n => if i < |s| then MergeValue(Elem(dst, i), s[i]) else d[i]))
    case _ => src
  }

  /** A value that holds nothing deeper than itself: it is neither a plain object nor an array. */
  predicate Scalar(v: Value) {
    !v.Obj? && !v.Arr?
  }

  /**
   * `_.merge(a, p)` on two attribute maps: the keys of both, `p` winning on a
   * scalar, `a` kept where `p` is silent, both merged where both hold objects.
   */
  function MergeAttrs(a: Attrs, p: Attrs): (r: Attrs)
    ensures r.Keys == a.Keys + p.Keys
    ensures forall k :: k in a && k !in p ==> r[k] == a[k]
    ensures forall k :: k in p && Scalar(p[k]) ==> r[k] == p[k]
    ensures forall k :: k in p && k !in a ==> r[k] == MergeValue(Null, p[k])
    ensures forall k :: k in p && k in a ==> r[k] == MergeValue(a[k], p[k])
  {
    var r := MergeValue(Obj(a), Obj(p)).fields;
    assert forall k :: k in p && Scalar(p[k]) ==> MergeValue(Field(Obj(a), k), p[k]) == p[k];
    r
  }

  /**
   * Everything `p` supplies is present in `r`: scalars verbatim, objects key by
   * key and arrays element by element (an array may have grown longer).
   */
  predicate Covers(r: Value, p: Value)
    decreases p
  {
    match p
    case Obj(s) => r.Obj? && forall k :: k in s ==> k in r.fields && Covers(r.fields[k], s[k])
    case Arr(s) => r.Arr? && |s| <= |r.elems| && forall i :: 0 <= i < |s| ==> Covers(r.elems[i], s[i])
    case _ => r == p
  }

  /** Merging into nothing yields a deep copy of the source. */
  lemma {:induction false} MergeIntoNullCopies(v: Value)
    ensures MergeValue(Null, v) == v
    decreases v
  {
    match v
    case Obj(s) =>
      forall k | k in s
        ensures MergeValue(Field(Null, k), s[k]) == s[k]
      {
        MergeIntoNullCopies(s[k]);
      }
      assert MergeValue(Null, v).fields == s;
    case Arr(s) =>
      forall i | 0 <= i < |s|
        ensures MergeValue(Elem(Null, i), s[i]) == s[i]
      {
        MergeIntoNullCopies(s[i]);
      }
      assert MergeValue(Null, v).elems == s;
    case _ =>
  }

  /** Merging a value into itself changes nothing. */
  lemma {:induction false} MergeSelf(v: Value)
    ensures MergeValue(v, v) == v
    decreases v
  {
    match v
    case Obj(s) =>
      forall k | k in s
        ensures MergeValue(Field(v, k), s[k]) == s[k]
      {
        MergeSelf(s[k]);
      }
      assert MergeValue(v, v).fields == s;
    case Arr(s) =>
      forall i | 0 <= i < |s|
        ensures MergeValue(Elem(v, i), s[i]) == s[i]
      {
        MergeSelf(s[i]);
      }
      assert MergeValue(v, v).elems == s;
    case _ =>
  }

  /** The merged value contains everything the source supplied: later values win. */
  lemma {:induction false} MergeCoversSource(dst: Value, src: Value)
    ensures Covers(MergeValue(dst, src), src)
    decreases src
  {
    match src
    case Obj(s) =>
      forall k | k in s
        ensures Covers(MergeValue(Field(dst, k), s[k]), s[k])
      {
        MergeCoversSource(Field(dst, k), s[k]);
      }
    case Arr(s) =>
      forall i | 0 <= i < |s|
        ensures Covers(MergeValue(Elem(dst, i), s[i]), s[i])
      {
        MergeCoversSource(Elem(dst, i), s[i]);
      }
    case _ =>
  }

  /** Applying the same patch twice is the same as applying it once. */
  lemma {:induction false} MergeTwiceIsOnce(dst: Value, src: Value)
    ensures MergeValue(MergeValue(dst, src), src) == MergeValue(dst, src)
    decreases src, 1
  {
    if src.Obj? {
      MergeObjectTwiceIsOnce(dst, src);
    } else if src.Arr? {
      MergeArrayTwiceIsOnce(dst, src);
    }
  }

  /** Merging an object source puts, under each of its keys, the merge of the destination's entry with the source's. */
  lemma MergeObjectEntry(dst: Value, src: Value, k: string)
    requires src.Obj? && k in src.fields
    ensures MergeValue(dst, src).fields[k] == MergeValue(Field(dst, k), src.fields[k])
  {
  }

  /** The object case of `MergeTwiceIsOnce`: every key of the source is merged to a fixed point. */
  lemma {:induction false} MergeObjectTwiceIsOnce(dst: Value, src: Value)
    requires src.Obj?
    ensures MergeValue(MergeValue(dst, src), src) == MergeValue(dst, src)
    decreases src, 0
  {
    var once := MergeValue(dst, src);
    var twice := MergeValue(once, src);
    forall k | k in src.fields
      ensures twice.fields[k] == once.fields[k]
    {
      MergeObjectEntry(dst, src, k);
      MergeObjectEntry(once, src, k);
      MergeTwiceIsOnce(Field(dst, k), src.fields[k]);
    }
    assert twice.fields.Keys == once.fields.Keys;
    assert twice.fields == once.fields;
  }

  /** The array case of `MergeTwiceIsOnce`: every element of the source is merged to a fixed point. */
  lemma {:induction false} MergeArrayTwiceIsOnce(dst: Value, src: Value)
    requires src.Arr?
    ensures MergeValue(MergeValue(dst, src), src) == MergeValue(dst, src)
    decreases src, 0
  {
    var once := MergeValue(dst, src);
    forall i | 0 <= i < |src.elems|
      ensures MergeValue(Elem(once, i), src.elems[i]) == once.elems[i]
    {
      MergeTwiceIsOnce(Elem(dst, i), src.elems[i]);
    }
    assert MergeValue(once, src).elems == once.elems;
  }

  /** Merging an empty patch leaves an attribute map as it was. */
  lemma MergeEmptyPatch(a: Attrs)
    ensures MergeAttrs(a, map[]) == a
  {
  }

  /** Merging a map into an empty map deep-copies it. */
  lemma MergeIntoEmpty(p: Attrs)
    ensures MergeAttrs(map[], p) == p
  {
    MergeIntoNullCopies(Obj(p));
    assert Obj(MergeAttrs(map[], p)) == MergeValue(Null, Obj(p));
  }
}
