/**
 * `snakestream.collectors`: the two sinks that drain a composed stream.
 * The composition is the finite sequence the stream delivers; any value,
 * `None` included, is an ordinary element.
 */
module Collectors {

  /**
   * `to_generator`: re-yields each element of the composition exactly
   * once, in order, and then ends.
   */
  function ToGenerator<T>(composition: seq<T>): (r: seq<T>)
    ensures |r| == |composition|
    ensures forall i :: 0 <= i < |composition| ==> r[i] == composition[i]
  {
    if composition == [] then [] else [composition[0]] + ToGenerator(composition[1..])
  }

  /** `to_list`: appends every drained element to `ret`, in delivery order. */
  method ToList<T>(composition: seq<T>) returns (ret: seq<T>)
    ensures ret == composition
  {
    ret := [];
    for i := 0 to |composition|
      invariant ret == composition[..i]
    {
      ret := ret + [composition[i]];
    }
  }
}
