/** An optional value. */
module Options {
  datatype Option<T> = None | Some(value: T)
}

/** Rows of numbers. */
module Sequences {

  ghost predicate Distinct(s: seq<nat>)
  {
    forall i, j :: 0 <= i < j < |s| ==> s[i] != s[j]
  }
}

/** Facts about products and quotients. */
module Arithmetic {

  lemma MulMono(d: nat, a: int, b: int)
    requires a <= b
    ensures d * a <= d * b && a * d <= b * d
  {}

  /** A quotient and a remainder are the only ones. */
  lemma DivUnique(x: int, d: nat, q: int, r: nat)
    requires x == d * q + r && r < d
    ensures x / d == q && x % d == r
  {
    var k := x / d;
    assert x == d * k + x % d;
    if k < q { MulMono(d, k + 1, q); }
    if k > q { MulMono(d, q + 1, k); }
  }
}
