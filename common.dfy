/** Failure-carrying values and the ordered dictionaries the expression API takes as arguments. */
module Common {

  datatype Option<+T> = None | Some(value: T)

  /** The exception kinds raised while an expression is being built. */
  datatype Error =
    | KeyError(keys: seq<string>)          // a referenced column or mapping key is absent
    | IbisTypeError(names: seq<string>)    // an argument fails its validation rule
    | TypeError                            // operand types are not comparable
    | ValueError                           // a malformed argument value
    | ExpressionError                      // an expression of the wrong shape
    | AttributeError                       // a data type lacks the attribute read from it
    | IndexError                           // an empty argument list is indexed
    | AssertionError                       // a node's own `_validate` assertion fails
    | NotImplementedError                  // an argument kind with no implementation

  datatype Result<+T> = Ok(value: T) | Err(error: Error) {
    predicate IsFailure() { Err? }

    function PropagateFailure<U>(): Result<U>
      requires Err?
    {
      Err(error)
    }

    function Extract(): T
      requires Ok?
    {
      value
    }
  }

  /** A Python dict with string keys, in insertion order. */
  type Dict<V> = seq<(string, V)>

  function Keys<V>(d: Dict<V>): (ks: seq<string>)
    ensures |ks| == |d|
    ensures forall i :: 0 <= i < |d| ==> ks[i] == d[i].0
  {
    if d == [] then [] else [d[0].0] + Keys(d[1..])
  }

  ghost predicate DistinctKeys<V>(d: Dict<V>) {
    forall i, j :: 0 <= i < j < |d| ==> d[i].0 != d[j].0
  }

  /** `d[k]`; defined only for a key present in the dict. */
  function Lookup<V>(d: Dict<V>, k: string): (v: V)
    requires k in Keys(d)
    ensures exists i :: 0 <= i < |d| && d[i] == (k, v)
  {
    if d[0].0 == k then d[0].1 else Lookup(d[1..], k)
  }

  lemma LookupAt<V>(d: Dict<V>, i: nat)
    requires DistinctKeys(d) && i < |d|
    ensures d[i].0 in Keys(d) && Lookup(d, d[i].0) == d[i].1
  {
    var v := Lookup(d, d[i].0);
    var j :| 0 <= j < |d| && d[j] == (d[i].0, v);
    assert j == i;
  }
}
