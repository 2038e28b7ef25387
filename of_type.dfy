/**
 * `ofType`: the operator that narrows a stream of actions to those whose
 * `type` property is strictly equal to a given type.
 */
module OfType {
  import opened JsValues
  import opened Streams

  /** The `type` property of an action (`undefined` when the action has none). */
  function TypeOf(action: Value): Value {
    if action.Obj? && "type" in action.props then action.props["type"] else Undefined
  }

  /** `isOfType(type, action)`: `action.type === type`. */
  function IsOfType(t: string, action: Value): (r: bool)
    ensures r <==> action.Obj? && "type" in action.props && action.props["type"] == Str(t)
  {
    TypeOf(action) == Str(t)
  }

  /** `ofType(type)(stream)`: the Rx `filter` with `isOfType` bound to `type`. */
  function OfType(t: string, s: Stream<Value>): (r: Stream<Value>)
    ensures r.end == s.end
    ensures |r.items| <= |s.items|
    ensures forall i :: 0 <= i < |r.items| ==> IsOfType(t, r.items[i])
  {
    FilterStream(s, a => IsOfType(t, a))
  }

  /** An action is emitted exactly when it was emitted by the source and has the type. */
  lemma OfTypeKeepsExactlyTheType(t: string, s: Stream<Value>, a: Value)
    ensures a in OfType(t, s).items <==> a in s.items && IsOfType(t, a)
  {
    FilterMembership(s.items, x => IsOfType(t, x), a);
  }

  /** The operator works value by value: on concatenated emissions it keeps each part's actions in order. */
  lemma OfTypeInOrder(t: string, a: seq<Value>, b: seq<Value>, end: End)
    ensures OfType(t, Stream(a + b, end)).items == OfType(t, Stream(a, end)).items + OfType(t, Stream(b, end)).items
  {
    FilterAppend(a, b, x => IsOfType(t, x));
  }

  /** A stream whose actions all have the type passes through unchanged. */
  lemma OfTypeKeepsMatchingStream(t: string, s: Stream<Value>)
    requires forall i :: 0 <= i < |s.items| ==> IsOfType(t, s.items[i])
    ensures OfType(t, s) == s
  {
    FilterAll(s.items, x => IsOfType(t, x));
  }

  /** A stream with no action of the type emits nothing but still ends as the source does. */
  lemma OfTypeDropsOtherTypes(t: string, s: Stream<Value>)
    requires forall i :: 0 <= i < |s.items| ==> !IsOfType(t, s.items[i])
    ensures OfType(t, s) == Stream([], s.end)
  {
    FilterNone(s.items, x => IsOfType(t, x));
  }

  /** Applying `ofType` twice with the same type is applying it once. */
  lemma OfTypeIdempotent(t: string, s: Stream<Value>)
    ensures OfType(t, OfType(t, s)) == OfType(t, s)
  {
    FilterIdempotent(s.items, x => IsOfType(t, x));
  }
}
