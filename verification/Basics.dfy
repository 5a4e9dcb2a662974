/** Fixed-width integers and the small arithmetic shared by the models. */
module Bytes {

  type Byte = b: int | 0 <= b < 256

  type I64 = n: int | -0x8000_0000_0000_0000 <= n < 0x8000_0000_0000_0000

  function Min(a: int, b: int): int {
    if a <= b then a else b
  }

  function Max(a: int, b: int): int {
    if a >= b then a else b
  }
}

/** A value that may be absent. */
module Options {

  datatype Option<+T> = None | Some(value: T)
}

/** Ordered and duplicate-free lists. */
module Sequences {

  ghost predicate Increasing(s: seq<int>) {
    forall i, j :: 0 <= i < j < |s| ==> s[i] < s[j]
  }

  ghost predicate Distinct(s: seq<string>) {
    forall i, j :: 0 <= i < j < |s| ==> s[i] != s[j]
  }

  lemma IncreasingMore(s: seq<int>, x: int)
    requires Increasing(s) && forall y <- s :: y < x
    ensures Increasing(s + [x])
  {
    forall i, j | 0 <= i < j < |s + [x]|
      ensures (s + [x])[i] < (s + [x])[j]
    {
      assert s[i] in s;
    }
  }
}

/** Iteration over maps and sets, whose order is not specified. */
module Iteration {

  /** Some element. */
  method Pick<T(==)>(s: set<T>) returns (x: T)
    requires s != {}
    ensures x in s
  {
    x :| x in s;
  }
}
