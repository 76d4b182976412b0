/** Shared vocabulary: the error a failed list lookup raises, the Result type
    that carries it, indexed lookup with the semantics of java.util.List.get,
    and the runs of consecutive integers every picker column is built from. */
module Lists {

  /** The only failure the modelled code can raise on its own: an index that
      lies outside the list it is applied to. */
  datatype Error = IndexOutOfBounds(index: int, size: nat)

  datatype Result<+T> = Ok(value: T) | Err(error: Error) {

    predicate IsFailure() {
      Err?
    }

    function PropagateFailure<U>(): Result<U>
      requires Err?
    {
      Err(error)
    }

    function Extract(): T
      requires Ok?
    {
      value
    }
  }

  /** `list.get(index)`: the element when the index is in range, otherwise the
      out-of-bounds error naming the offending index and the list's size. */
  function At<T>(s: seq<T>, index: int): (r: Result<T>)
    ensures r.Ok? <==> 0 <= index < |s|
    ensures r.Ok? ==> r.value == s[index]
    ensures r.Err? ==> r.error == IndexOutOfBounds(index, |s|)
  {
    if 0 <= index < |s| then Ok(s[index]) else Err(IndexOutOfBounds(index, |s|))
  }

  /** The list a loop `for (i = 0; i < count; i++) list.add(first + i)` builds:
      empty when `count` is not positive. */
  function Consecutive(first: int, count: int): (r: seq<int>)
    ensures |r| == if count > 0 then count else 0
    ensures forall i :: 0 <= i < |r| ==> r[i] == first + i
  {
    seq(if count > 0 then count else 0, i => first + i)
  }

  /** A list whose every element is one more than its predecessor. */
  predicate IsRun(s: seq<int>) {
    forall i :: 0 <= i < |s| ==> s[i] == s[0] + i
  }

  /** In a run, the value `v` sits at index `v - s[0]` exactly when it lies
      between the first and the last element. */
  lemma RunIndex(s: seq<int>, v: int)
    requires IsRun(s) && |s| > 0
    ensures 0 <= v - s[0] < |s| <==> s[0] <= v <= s[|s| - 1]
    ensures 0 <= v - s[0] < |s| ==> s[v - s[0]] == v
  {
  }
}
