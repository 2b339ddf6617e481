/**
 * The `string_concat` aggregate: the non-empty strings of a group joined by
 * single spaces, in the order the states absorbed them.
 */
module StringConcat {
  import opened Text

  /** The non-empty strings of `xs`, in order. */
  function NonEmpty(xs: seq<string>): (r: seq<string>)
    ensures |r| <= |xs|
    ensures forall i :: 0 <= i < |r| ==> r[i] != ""
  {
    if |xs| == 0 then []
    else if xs[|xs| - 1] == "" then NonEmpty(xs[..|xs| - 1])
    else NonEmpty(xs[..|xs| - 1]) + [xs[|xs| - 1]]
  }

  /** Aggregating the two halves of a group separately keeps every string and their order. */
  lemma {:induction false} NonEmptyAppend(a: seq<string>, b: seq<string>)
    ensures NonEmpty(a + b) == NonEmpty(a) + NonEmpty(b)
    decreases |b|
  {
    if |b| == 0 {
      assert a + b == a;
    } else {
      var init := b[..|b| - 1];
      assert (a + b)[..|a + b| - 1] == a + init;
      assert (a + b)[|a + b| - 1] == b[|b| - 1];
      NonEmptyAppend(a, init);
    }
  }

  /** `count` copies of `x`. */
  function Repeat(x: string, count: nat): (r: seq<string>)
    ensures |r| == count
    ensures forall i :: 0 <= i < count ==> r[i] == x
  {
    if count == 0 then [] else Repeat(x, count - 1) + [x]
  }

  /** Only a non-empty input is ever absorbed, once per repetition. */
  lemma {:induction false} NonEmptyRepeat(x: string, count: nat)
    ensures NonEmpty(Repeat(x, count)) == if x == "" then [] else Repeat(x, count)
  {
    if count > 0 {
      var init := Repeat(x, count - 1);
      NonEmptyRepeat(x, count - 1);
      NonEmptyAppend(init, [x]);
      assert NonEmpty([x]) == if x == "" then [] else [x] by {
        assert [x][..0] == [];
      }
    }
  }

  lemma Regroup(a: seq<string>, b: seq<string>, c: seq<string>)
    ensures a + (b + c) == (a + b) + c
  {
  }

  class StringConcatState {
    var isInitialized: bool
    var value: string
    /** The strings absorbed so far. */
    ghost var inputs: seq<string>

    /** The state holds the absorbed strings joined by spaces, and is initialised once it holds any. */
    ghost predicate Valid()
      reads this
    {
      && (isInitialized <==> |inputs| > 0)
      && (forall i :: 0 <= i < |inputs| ==> inputs[i] != "")
      && value == Join(inputs, " ")
    }

    constructor()
      ensures Valid() && inputs == []
    {
      isInitialized := false;
      value := "";
      inputs := [];
    }

    method Initialize()
      modifies this
      ensures Valid() && inputs == []
      ensures !isInitialized && value == ""
    {
      isInitialized := false;
      value := "";
      inputs := [];
    }

    /** Absorbs one input: an empty one is ignored, the first is kept as it is, later ones follow a space. */
    method Operation(input: string)
      requires Valid()
      modifies this
      ensures Valid()
      ensures inputs == old(inputs) + NonEmpty([input])
      ensures input == "" ==> value == old(value) && isInitialized == old(isInitialized)
      ensures input != "" && !old(isInitialized) ==> value == input && isInitialized
      ensures input != "" && old(isInitialized) ==> value == old(value) + " " + input && isInitialized
    {
      assert NonEmpty([input]) == if input == "" then [] else [input] by {
        assert [input][..0] == [];
      }
      if input == "" {
        assert inputs + [] == inputs;
        return;
      }
      if !isInitialized {
        value := input;
        isInitialized := true;
      } else {
        JoinSnoc(inputs, input, " ");
        value := value + " " + input;
      }
      inputs := inputs + [input];
    }

    /** The same input `count` times over. */
    method ConstantOperation(input: string, count: nat)
      requires Valid()
      modifies this
      ensures Valid()
      ensures inputs == old(inputs) + NonEmpty(Repeat(input, count))
    {
      ghost var start := inputs;
      ghost var absorbed := if input == "" then [] else Repeat(input, 0);
      var i := 0;
      assert start + absorbed == start;
      while i < count
        invariant 0 <= i <= count
        invariant Valid()
        invariant absorbed == if input == "" then [] else Repeat(input, i)
        invariant inputs == start + absorbed
      {
        ghost var added := if input == "" then [] else [input];
        assert NonEmpty([input]) == added by {
          assert [input][..0] == [];
        }
        Operation(input);
        Regroup(start, absorbed, added);
        absorbed := absorbed + added;
        i := i + 1;
      }
      NonEmptyRepeat(input, count);
    }

    /** Takes in another state's strings after this one's. */
    method Combine(source: StringConcatState)
      requires Valid() && source.Valid()
      modifies this
      ensures Valid()
      ensures inputs == old(inputs) + old(source.inputs)
      ensures !old(source.isInitialized) ==> value == old(value) && isInitialized == old(isInitialized)
      ensures old(source.isInitialized) && !old(isInitialized) ==> value == old(source.value) && isInitialized
      ensures old(source.isInitialized) && old(isInitialized) ==> value == old(value) + " " + old(source.value) && isInitialized
    {
      if !source.isInitialized {
        assert inputs + source.inputs == inputs;
        return;
      }
      var added := source.inputs;
      if !isInitialized {
        assert inputs + added == added;
        value := source.value;
        isInitialized := true;
      } else {
        JoinAppend(inputs, added, " ");
        value := value + " " + source.value;
      }
      inputs := inputs + added;
    }

    /** The result: the absorbed strings joined by spaces, or the empty string when there were none. */
    method Finalize() returns (r: string)
      requires Valid()
      ensures r == Join(inputs, " ")
      ensures isInitialized ==> r == value
      ensures !isInitialized ==> r == ""
    {
      if isInitialized {
        r := value;
      } else {
        r := "";
      }
    }
  }
}
