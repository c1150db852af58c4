/** Go's `strings.Join`, which names the subsystem after the group path. */
module Strings {

  /** The elements in order with `sep` between neighbours. */
  function Join(elems: seq<string>, sep: string): (r: string)
    ensures elems == [] ==> r == ""
    ensures |elems| == 1 ==> r == elems[0]
    ensures |elems| >= 2 ==> |r| >= |sep|
  {
    if elems == [] then ""
    else if |elems| == 1 then elems[0]
    else elems[0] + sep + Join(elems[1..], sep)
  }

  /** With a non-empty separator the result is empty only for `[]` and `[""]`. */
  lemma JoinEmptyIff(elems: seq<string>, sep: string)
    requires sep != ""
    ensures Join(elems, sep) == "" <==> elems == [] || elems == [""]
  {
  }

  /** Appending an element appends the separator and the element. */
  lemma {:induction false} JoinSnoc(elems: seq<string>, sep: string, s: string)
    requires elems != []
    ensures Join(elems + [s], sep) == Join(elems, sep) + sep + s
    decreases |elems|
  {
    if |elems| > 1 {
      assert (elems + [s])[1..] == elems[1..] + [s];
      JoinSnoc(elems[1..], sep, s);
    }
  }
}
