/** Small things that several components need. */
module Shared {
  datatype Option<T> = None | Some(value: T)

  /** The first element that satisfies `p`, or -1. */
  function FirstIndex<T>(s: seq<T>, p: T -> bool): (i: int)
    ensures -1 <= i < |s|
    ensures i >= 0 ==> p(s[i]) && forall j :: 0 <= j < i ==> !p(s[j])
    ensures i < 0 ==> forall j :: 0 <= j < |s| ==> !p(s[j])
  {
    if s == [] then -1
    else if p(s[0]) then 0
    else
      var i := FirstIndex(s[1..], p);
      if i < 0 then -1 else i + 1
  }
}
