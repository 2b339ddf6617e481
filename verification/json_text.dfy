/**
 * The compact JSON serialisation of an array, as the aggregates charge it
 * against the token budget: elements rendered one by one, separated by
 * commas, between square brackets, with no whitespace.
 */
module JsonText {
  import opened Text

  function Map<J>(render: J -> string, xs: seq<J>): (r: seq<string>)
    ensures |r| == |xs|
    ensures forall i :: 0 <= i < |xs| ==> r[i] == render(xs[i])
  {
    seq(|xs|, i requires 0 <= i < |xs| => render(xs[i]))
  }

  /** The array `xs`, each element rendered by `render`. */
  function ArrayDump<J>(render: J -> string, xs: seq<J>): (s: string)
    ensures |s| >= 2 && s[0] == '[' && s[|s| - 1] == ']'
    ensures xs == [] ==> s == "[]"
    ensures |xs| == 1 ==> s == "[" + render(xs[0]) + "]"
  {
    "[" + Join(Map(render, xs), ",") + "]"
  }
}
