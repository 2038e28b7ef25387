/**
 * `randomElement` and `randomElementExcluding`. `Math.random()` is a parameter:
 * a real number in `[0, 1)`.
 */
module RandomElement {
  import opened JsValues
  import opened Streams

  const EmptyChoiceSet := "Empty choice set"

  /** The index `Math.floor(random * length)` picks. */
  function PickIndex(random: real, length: nat): (i: int)
    requires 0.0 <= random < 1.0 && length > 0
    ensures 0 <= i < length
  {
    var x := random * (length as real);
    assert 0.0 <= x < length as real;
    x.Floor
  }

  /** `randomElement(arr)`: a `TypeError` for an empty array, else the element at the random index. */
  function RandomElement<T>(arr: seq<T>, random: real): (r: Completion<T>)
    requires 0.0 <= random < 1.0
    ensures r.Threw? <==> arr == []
    ensures r.Threw? ==> r.thrown == Err(ErrorOf("TypeError", EmptyChoiceSet))
    ensures r.Returned? ==> r.value in arr
  {
    if |arr| == 0 then Threw(Err(ErrorOf("TypeError", EmptyChoiceSet)))
    else Returned(arr[PickIndex(random, |arr|)])
  }

  /**
   * `randomElementExcluding(input, exclude)`: `randomElement` over the inputs not in the set of
   * excluded values. The chosen element is an input that is not excluded; the call throws
   * exactly when every input is excluded.
   */
  function RandomElementExcluding<T(==)>(input: seq<T>, exclude: seq<T>, random: real): (r: Completion<T>)
    requires 0.0 <= random < 1.0
    ensures r.Returned? ==> r.value in input && r.value !in exclude
    ensures r.Threw? <==> forall i :: 0 <= i < |input| ==> input[i] in exclude
    ensures r.Threw? ==> r.thrown == Err(ErrorOf("TypeError", EmptyChoiceSet))
  {
    var excludeSet := set x | x in exclude;
    var allowed := (x: T) => x !in excludeSet;
    AllowedInputs(input, exclude, allowed);
    RandomElement(Filter(input, allowed), random)
  }

  /** The inputs a predicate that refuses exactly the excluded values keeps: the allowed ones, none only when all are excluded. */
  lemma AllowedInputs<T>(input: seq<T>, exclude: seq<T>, allowed: T -> bool)
    requires forall x :: allowed(x) <==> x !in exclude
    ensures forall x :: x in Filter(input, allowed) <==> x in input && x !in exclude
    ensures Filter(input, allowed) == [] <==> forall i :: 0 <= i < |input| ==> input[i] in exclude
  {
    forall x ensures x in Filter(input, allowed) <==> x in input && x !in exclude {
      FilterMembership(input, allowed, x);
    }
    if forall i :: 0 <= i < |input| ==> input[i] in exclude {
      FilterNone(input, allowed);
    } else {
      var i :| 0 <= i < |input| && input[i] !in exclude;
      assert input[i] in Filter(input, allowed);
    }
  }
}
