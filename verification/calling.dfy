/**
 * The `(options, callback)` convention shared by the asynchronous operations
 * of items and of the registry: a function given in place of the options is
 * the callback, missing options are `{}`, and a promise is handed back only
 * when no callback was supplied.
 */
module Calling {
  import opened Json

  /** How the result of an operation reaches the caller. */
  datatype Delivery = ViaPromise | ViaCallback(callback: Value)

  /** The options an operation goes on with, and how it reports back. */
  datatype Invocation = Invocation(options: Value, delivery: Delivery)

  /** The callback argument that a delivery came from: none for a promise. */
  function CallbackOf(d: Delivery): Value {
    if d.ViaCallback? then d.callback else Null
  }

  /** Delivery for an operation that takes only a callback: a promise exactly when it is missing. */
  function Deliver(callback: Value): (d: Delivery)
    ensures d.ViaPromise? <==> !Truthy(callback)
    ensures d.ViaCallback? ==> d.callback == callback
  {
    if Truthy(callback) then ViaCallback(callback) else ViaPromise
  }

  /**
   * Argument normalisation of `update`, `destroy` and `createTables`. The
   * options that go on are always truthy; a function passed alone as the
   * options becomes the callback with options `{}`; a promise is used exactly
   * when neither argument supplies a function or truthy callback.
   */
  function Normalise(options: Value, callback: Value): (c: Invocation)
    ensures Truthy(c.options)
    ensures c.delivery.ViaPromise? <==> !Truthy(callback) && !options.Fn?
    ensures c.delivery.ViaCallback? ==> Truthy(c.delivery.callback)
    ensures options.Fn? && !Truthy(callback) ==> c == Invocation(Obj(map[]), ViaCallback(options))
    ensures Truthy(callback) ==> c.delivery == ViaCallback(callback)
    ensures !(options.Fn? && !Truthy(callback)) && Truthy(options) ==> c.options == options
  {
    if options.Fn? && !Truthy(callback) then Invocation(Obj(map[]), ViaCallback(options))
    else Invocation(if Truthy(options) then options else Obj(map[]), Deliver(callback))
  }

  /** Normalised arguments are a fixed point: normalising them again changes nothing. */
  lemma NormaliseIdempotent(options: Value, callback: Value)
    ensures var c := Normalise(options, callback);
      Normalise(c.options, CallbackOf(c.delivery)) == c
  {
  }

  /** Missing options and an explicit `{}` behave the same. */
  lemma MissingOptionsAreEmpty(callback: Value)
    ensures Normalise(Null, callback) == Normalise(Obj(map[]), callback)
  {
  }
}
