/** Small value types and facts about sequences shared by the whole model. */
module Prelude {

  datatype Option<+T> = None | Some(value: T)

  datatype Result<+T, +E> = Success(value: T) | Failure(error: E)

  const MIN_INT64: int := -0x8000_0000_0000_0000
  const MAX_INT64: int := 0x7FFF_FFFF_FFFF_FFFF

  /** Go's `int64`, and `int` on the 64-bit platforms the server is built for. */
  type int64 = n: int | MIN_INT64 <= n <= MAX_INT64

  predicate InInt64(n: int) {
    MIN_INT64 <= n <= MAX_INT64
  }

  /** Two's-complement reduction: the value Go leaves in an `int64` after an overflow. */
  function Wrap64(n: int): (r: int64)
    ensures InInt64(n) ==> r == n
  {
    (n + 0x8000_0000_0000_0000) % 0x1_0000_0000_0000_0000 - 0x8000_0000_0000_0000
  }

  function Min(a: int, b: int): int {
    if a <= b then a else b
  }

  function Reverse<T>(s: seq<T>): (r: seq<T>)
    ensures |r| == |s|
    ensures forall i :: 0 <= i < |s| ==> r[i] == s[|s| - 1 - i]
  {
    seq(|s|, i requires 0 <= i < |s| => s[|s| - 1 - i])
  }

  lemma ReverseConcat<T>(a: seq<T>, b: seq<T>)
    ensures Reverse(a + b) == Reverse(b) + Reverse(a)
  {
  }

  lemma ReverseTwice<T>(s: seq<T>)
    ensures Reverse(Reverse(s)) == s
  {
  }

  predicate Distinct<T(==)>(s: seq<T>) {
    forall i, j :: 0 <= i < j < |s| ==> s[i] != s[j]
  }

  function Elements<T>(s: seq<T>): set<T> {
    set x | x in s
  }

  lemma {:induction false} DistinctCardinality<T>(s: seq<T>)
    requires Distinct(s)
    ensures |Elements(s)| == |s|
  {
    if s == [] {
      assert Elements(s) == {};
    } else {
      var rest := s[..|s| - 1];
      DistinctCardinality(rest);
      assert s == rest + [s[|s| - 1]];
      assert Elements(s) == Elements(rest) + {s[|s| - 1]};
    }
  }

  /** The elements of a set, in the order Go happens to walk it. */
  method ListOf<T>(st: set<T>) returns (r: seq<T>)
    ensures Distinct(r) && Elements(r) == st && multiset(r) == multiset(st)
  {
    r := [];
    var todo := st;
    while todo != {}
      invariant todo <= st && Distinct(r) && multiset(r) == multiset(st - todo)
      invariant forall x :: x in r <==> x in st && x !in todo
    {
      var x :| x in todo;
      assert st - (todo - {x}) == (st - todo) + {x};
      r, todo := r + [x], todo - {x};
    }
    assert st - {} == st;
  }
}
