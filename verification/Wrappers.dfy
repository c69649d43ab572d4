/** Optional values, maxima and lists without repeats. */
module Wrappers {

  datatype Option<+T> = None | Some(value: T)

  function Max(x: nat, y: nat): nat { if x < y then y else x }

  /** No element occurs twice. */
  ghost predicate Distinct<T>(s: seq<T>) {
    forall i, j :: 0 <= i < j < |s| ==> s[i] != s[j]
  }
}

/** The monotone fence counter that stands for the GPU (or, for readbacks, for the CPU signaller). */
module Fences {

  const UINT64_MAX: nat := 0xFFFF_FFFF_FFFF_FFFF

  type Word = x: nat | x <= UINT64_MAX

  /**
   * A fence whose completed value another agent may advance at any moment, but never move back. A removed
   * device shows as UINT64_MAX.
   */
  class Fence {
    var completed: Word

    constructor (initial: Word)
      ensures completed == initial
    {
      completed := initial;
    }

    /** One read of the completed value. Two reads in a row may differ, but only upwards. */
    method GetCompletedValue() returns (v: Word)
      modifies this
      ensures old(completed) <= v == completed
    {
      v :| completed <= v;
      completed := v;
    }
  }
}
