/** Optional values: a Python dictionary key that may be missing, a JavaScript property that may be undefined. */
module Wrappers {

  datatype Option<+T> = None | Some(value: T) {

    /** The value, or `default` when absent: Python's `dict.get(key, default)`. */
    function GetOr(default: T): T {
      match this
      case Some(v) => v
      case None => default
    }
  }

  /** The index of the first `None`, or the length when there is none. */
  function FirstNone<T>(xs: seq<Option<T>>): (k: nat)
    ensures k <= |xs|
    ensures forall j :: 0 <= j < k ==> xs[j].Some?
    ensures k < |xs| ==> xs[k].None?
    decreases |xs|
  {
    if xs == [] || xs[0].None? then 0 else 1 + FirstNone(xs[1..])
  }

  /** The values before the first `None`. */
  function ValuesBeforeNone<T>(xs: seq<Option<T>>): (vs: seq<T>)
    ensures |vs| == FirstNone(xs)
    ensures forall j :: 0 <= j < |vs| ==> xs[j] == Some(vs[j])
  {
    var k := FirstNone(xs);
    seq(k, j requires 0 <= j < k => xs[j].value)
  }
}
