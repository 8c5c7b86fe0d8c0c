/**
 * The loop and predicate helpers of the exception-handling demonstration:
 * the "bad" variants that use exceptions for control flow and the "good"
 * variants that do not, which compute the same answers.
 *
 * A Java `List<String>` is a sequence whose elements may be null, a Java
 * `int[]` a sequence of int32; a null reference is `None`.
 */
module ListHelpers {
  import opened Results
  import opened Int32
  import Text

  /** Exceptions the helpers let escape. */
  datatype Thrown = NullPointer | IllegalArgument(message: string)

  /** The smallest index whose element is a string equal to `target`, or -1. */
  function FirstIndexOf(xs: seq<Option<string>>, target: string): (r: int)
    ensures -1 <= r < |xs|
    ensures r >= 0 ==> xs[r] == Some(target) && forall k :: 0 <= k < r ==> xs[k] != Some(target)
    ensures r == -1 ==> forall k :: 0 <= k < |xs| ==> xs[k] != Some(target)
  {
    if xs == [] then -1
    else if xs[0] == Some(target) then 0
    else
      var i := FirstIndexOf(xs[1..], target);
      if i == -1 then -1 else i + 1
  }

  /** What `findIndexGood` answers: -1 for a null list or a null target. */
  function IndexOf(list: Option<seq<Option<string>>>, target: Option<string>): int
  {
    if list.None? || target.None? then -1 else FirstIndexOf(list.value, target.value)
  }

  /** `findIndexGood`: a bounded loop that compares with `target.equals(list.get(i))`. */
  method FindIndexGood(list: Option<seq<Option<string>>>, target: Option<string>) returns (index: int)
    ensures index == IndexOf(list, target)
  {
    if list.None? || target.None? {
      return -1;
    }
    var xs, t := list.value, target.value;
    var i := 0;
    while i < |xs|
      invariant 0 <= i <= |xs|
      invariant forall k :: 0 <= k < i ==> xs[k] != Some(t)
    {
      if xs[i] == Some(t) {
        return i;
      }
      i := i + 1;
    }
    return -1;
  }

  /** Some element is null and no element before it equals the target. */
  predicate NullBeforeMatch(xs: seq<Option<string>>, target: Option<string>)
  {
    exists j :: 0 <= j < |xs| && xs[j].None? && forall k :: 0 <= k < j ==> xs[k].None? || Some(xs[k].value) != target
  }

  /**
   * `findIndexBad`: counts towards Integer.MAX_VALUE and leaves through
   * the IndexOutOfBoundsException of `list.get(i)`; `list.get(i).equals`
   * throws a NullPointerException on a null element, and a null list
   * throws one too. `caught` tells whether the answer came from the catch.
   */
  method FindIndexBad(list: Option<seq<Option<string>>>, target: Option<string>)
      returns (r: Result<int, Thrown>, caught: bool)
    requires list.Some? ==> |list.value| <= MAX
    ensures r.Ok? ==> r.value == IndexOf(list, target)
    ensures r.Err? ==> r.error == NullPointer
    ensures r.Err? <==> list.None? || NullBeforeMatch(list.value, target)
    ensures caught ==> r == Ok(-1)
    ensures r == Ok(-1) ==> (caught <==> |list.value| < MAX)
  {
    caught := false;
    if list.None? {
      return Err(NullPointer), false;
    }
    var xs := list.value;
    var i := 0;
    while i < MAX
      invariant 0 <= i <= |xs| && i <= MAX
      invariant forall k :: 0 <= k < i ==> xs[k].Some? && Some(xs[k].value) != target
    {
      if i >= |xs| {
        return Ok(-1), true;
      }
      if xs[i].None? {
        return Err(NullPointer), false;
      }
      if Some(xs[i].value) == target {
        return Ok(i), false;
      }
      i := i + 1;
    }
    return Ok(-1), false;
  }

  /** The exact (unbounded) sum of the positive elements. */
  function SumOfPositives(xs: seq<int32>): int
  {
    if xs == [] then 0
    else SumOfPositives(xs[..|xs| - 1]) + (if xs[|xs| - 1] > 0 then xs[|xs| - 1] as int else 0)
  }

  /** `sumPositiveNumbersGood`: 0 for a null array, else the sum of the
      elements above 0, accumulated in a wrapping Java `int`. */
  method SumPositiveNumbersGood(numbers: Option<seq<int32>>) returns (sum: int32)
    ensures sum == if numbers.None? then 0 else Wrap(SumOfPositives(numbers.value))
  {
    if numbers.None? {
      return 0;
    }
    var xs := numbers.value;
    sum := 0;
    for i := 0 to |xs|
      invariant sum == Wrap(SumOfPositives(xs[..i]))
    {
      assert xs[..i + 1][..i] == xs[..i];
      if xs[i] > 0 {
        WrapAdd(SumOfPositives(xs[..i]), xs[i] as int);
        sum := Add(sum, xs[i]);
      }
    }
    assert xs[..|xs|] == xs;
  }

  /** `sumPositiveNumbersBad`: throws (and swallows) an exception for each
      negative element and adds every other one, zeros included; iterating
      a null array throws a NullPointerException. */
  method SumPositiveNumbersBad(numbers: Option<seq<int32>>) returns (r: Result<int32, Thrown>)
    ensures numbers.None? ==> r == Err(NullPointer)
    ensures numbers.Some? ==> r == Ok(Wrap(SumOfPositives(numbers.value)))
  {
    if numbers.None? {
      return Err(NullPointer);
    }
    var xs := numbers.value;
    var sum: int32 := 0;
    for i := 0 to |xs|
      invariant sum == Wrap(SumOfPositives(xs[..i]))
    {
      assert xs[..i + 1][..i] == xs[..i];
      if xs[i] < 0 {
        // the IllegalArgumentException thrown here is caught at once
      } else {
        WrapAdd(SumOfPositives(xs[..i]), xs[i] as int);
        sum := Add(sum, xs[i]);
      }
    }
    assert xs[..|xs|] == xs;
    return Ok(sum);
  }

  /** The demonstration's inputs give the values it prints. */
  lemma DemonstrationValues()
    ensures FirstIndexOf([Some("apple"), Some("banana"), Some("cherry")], "banana") == 1
    ensures Wrap(SumOfPositives([1, 2, -3, 4, -5, 6])) == 13
  {
    var xs: seq<int32> := [1, 2, -3, 4, -5, 6];
    assert xs[..1][..0] == [] && xs[..2][..1] == xs[..1] && xs[..3][..2] == xs[..2];
    assert xs[..4][..3] == xs[..3] && xs[..5][..4] == xs[..4] && xs[..5] == xs[..|xs| - 1];
    assert SumOfPositives(xs[..1]) == 1;
    assert SumOfPositives(xs[..2]) == 3;
    assert SumOfPositives(xs[..3]) == 3;
    assert SumOfPositives(xs[..4]) == 7;
    assert SumOfPositives(xs[..5]) == 7;
    assert SumOfPositives(xs) == 13;
  }

  const MAX_INPUT_LENGTH := 100

  /** `validateInput`: `None` when the input is accepted, else the exception it throws. */
  function ValidateInput(input: Option<string>): (r: Option<Thrown>)
    ensures r.None? <==> input.Some? && |input.value| <= MAX_INPUT_LENGTH &&
                         exists k :: 0 <= k < |input.value| && !Text.IsTrimmable(input.value[k])
    ensures input.None? ==> r == Some(IllegalArgument("Input cannot be null"))
    ensures input.Some? && (forall k :: 0 <= k < |input.value| ==> Text.IsTrimmable(input.value[k])) ==>
              r == Some(IllegalArgument("Input cannot be empty"))
    ensures input.Some? && (exists k :: 0 <= k < |input.value| && !Text.IsTrimmable(input.value[k])) &&
            |input.value| > MAX_INPUT_LENGTH ==>
              r == Some(IllegalArgument("Input exceeds maximum length"))
    ensures r.Some? ==> r.value.IllegalArgument?
  {
    if input.None? then Some(IllegalArgument("Input cannot be null"))
    else
      var s := input.value;
      Text.TrimEmptyIff(s);
      if Text.Trim(s) == [] then Some(IllegalArgument("Input cannot be empty"))
      else if |s| > MAX_INPUT_LENGTH then Some(IllegalArgument("Input exceeds maximum length"))
      else None
  }
}
