/**
 * `areArraysEqual`: two optional string arrays are equal when both are absent,
 * or both are present with the same length and strictly equal elements.
 */
module ArraysEqual {
  import opened JsValues

  /** `(!a && !b) || (Array.isArray(a) && Array.isArray(b) && a.length === b.length && a.every((v, i) => v === b[i]))`. */
  function AreArraysEqual(a: Option<seq<string>>, b: Option<seq<string>>): (r: bool)
    ensures a.None? && b.None? ==> r
    ensures a.None? != b.None? ==> !r
    ensures a.Some? && b.Some? ==> (r <==> |a.value| == |b.value| && forall i :: 0 <= i < |a.value| ==> a.value[i] == b.value[i])
  {
    // an array, even an empty one, is truthy, so `!a` holds only for `undefined`
    (a.None? && b.None?)
    || (a.Some? && b.Some? && |a.value| == |b.value| && Every(a.value, b.value, 0))
  }

  /** `a.every((val, idx) => val === b[idx])`, scanning from index `from`. */
  function Every(a: seq<string>, b: seq<string>, from: nat): (r: bool)
    requires |a| == |b| && from <= |a|
    ensures r <==> forall i :: from <= i < |a| ==> a[i] == b[i]
    decreases |a| - from
  {
    from == |a| || (a[from] == b[from] && Every(a, b, from + 1))
  }

  /** The comparison is value equality of the two optional arrays. */
  lemma EqualIffSame(a: Option<seq<string>>, b: Option<seq<string>>)
    ensures AreArraysEqual(a, b) <==> a == b
  {
    if a.Some? && b.Some? && AreArraysEqual(a, b) {
      assert a.value == b.value;
    }
  }

  /** The comparison is reflexive and symmetric. */
  lemma ReflexiveSymmetric(a: Option<seq<string>>, b: Option<seq<string>>)
    ensures AreArraysEqual(a, a)
    ensures AreArraysEqual(a, b) == AreArraysEqual(b, a)
  {
    EqualIffSame(a, a);
    EqualIffSame(a, b);
    EqualIffSame(b, a);
  }
}
