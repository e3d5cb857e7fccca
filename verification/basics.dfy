/** Optional values, the smaller and larger of two numbers, and the size of a subset; operations that
    may fail. */
module Basics {
  datatype Option<+T> = None | Some(value: T)

  function Min(a: int, b: int): int { if a <= b then a else b }

  function Max(a: int, b: int): int { if a <= b then b else a }

  function NMin(a: nat, b: nat): nat { if a <= b then a else b }

  function NMax(a: nat, b: nat): nat { if a <= b then b else a }

  function RMax(a: real, b: real): real { if a < b then b else a }

  /** Whether an operation succeeds, where operations may fail at all. */
  method Succeeds(mayFail: bool) returns (works: bool)
    ensures !mayFail ==> works
  {
    works := *;
    if !mayFail {
      works := true;
    }
  }

  lemma {:induction false} SubsetSize<T>(a: set<T>, b: set<T>)
    requires a <= b
    ensures |a| <= |b|
  {
    if a != {} {
      var x :| x in a;
      SubsetSize(a - {x}, b - {x});
    }
  }
}
