/** Machine words as rows of bits, lists of words, and the numbers they stand for. */
module Bits {
  import opened Arithmetic

  const BITS: nat := 64

  type Word = w: seq<bool> | |w| == BITS witness seq(BITS, i => false)

  function Fill(b: bool): Word
  {
    seq(BITS, i => b)
  }

  function Shr(w: Word, n: nat): Word
    requires n < BITS
  {
    seq(BITS, i requires 0 <= i < BITS => i + n < BITS && w[i + n])
  }

  function Shl(w: Word, n: nat): Word
    requires n < BITS
  {
    seq(BITS, i requires 0 <= i < BITS => i >= n && w[i - n])
  }

  function Or(a: Word, b: Word): Word
  {
    seq(BITS, i requires 0 <= i < BITS => a[i] || b[i])
  }

  function And(a: Word, b: Word): Word
  {
    seq(BITS, i requires 0 <= i < BITS => a[i] && b[i])
  }

  function Not(a: Word): Word
  {
    seq(BITS, i requires 0 <= i < BITS => !a[i])
  }

  function Bit(ws: seq<Word>, i: nat): bool
  {
    i / BITS < |ws| && ws[i / BITS][i % BITS]
  }

  function BitsOf(ws: seq<Word>): nat -> bool
  {
    (i: nat) => Bit(ws, i)
  }

  // ---------- numbers ----------

  function Pow2(n: nat): (p: nat)
    ensures p > 0
  {
    if n == 0 then 1 else 2 * Pow2(n - 1)
  }

  lemma {:induction false} Pow2Grows(m: nat, n: nat)
    requires m <= n
    ensures Pow2(m) <= Pow2(n)
  {
    if m < n { Pow2Grows(m, n - 1); }
  }

  /** The number that the first `n` bits stand for. */
  function Val(f: nat -> bool, n: nat): nat
  {
    if n == 0 then 0 else Val(f, n - 1) + (if f(n - 1) then Pow2(n - 1) else 0)
  }

  function Value(ws: seq<Word>): nat
  {
    Val(BitsOf(ws), BITS * |ws|)
  }

  lemma {:induction false} ValBound(f: nat -> bool, n: nat)
    ensures Val(f, n) < Pow2(n)
  {
    if n > 0 { ValBound(f, n - 1); }
  }

  lemma {:induction false} ValSame(f: nat -> bool, g: nat -> bool, n: nat)
    requires forall i: nat :: i < n ==> f(i) == g(i)
    ensures Val(f, n) == Val(g, n)
  {
    if n > 0 { ValSame(f, g, n - 1); }
  }

  lemma {:induction false} Pow2Adds(m: nat, n: nat)
    ensures Pow2(m + n) == Pow2(m) * Pow2(n)
  {
    if n > 0 {
      Pow2Adds(m, n - 1);
      assert m + n - 1 == m + (n - 1);
      TwiceProduct(Pow2(m), Pow2(n - 1));
    }
  }

  lemma TwiceProduct(a: nat, b: nat)
    ensures a * (2 * b) == 2 * (a * b)
  {}

  /** The bits from the `c`-th on count `2^c` times as much as if they were the first. */
  lemma {:induction false} ValSplits(f: nat -> bool, g: nat -> bool, c: nat, n: nat)
    requires forall i: nat :: i < n ==> g(i) == f(i + c)
    ensures Val(f, c + n) == Val(f, c) + Pow2(c) * Val(g, n)
  {
    if n > 0 {
      ValSplits(f, g, c, n - 1);
      Pow2Adds(c, n - 1);
      assert g(n - 1) == f(n - 1 + c);
      Distributes(Pow2(c), Val(g, n - 1), if g(n - 1) then Pow2(n - 1) else 0);
    }
  }

  lemma Distributes(a: nat, b: nat, c: nat)
    ensures a * (b + c) == a * b + a * c
  {}

  /** Bits that are not set do not count. */
  lemma {:induction false} ValZeros(f: nat -> bool, m: nat, n: nat)
    requires m <= n && forall i: nat :: m <= i < n ==> !f(i)
    ensures Val(f, n) == Val(f, m)
  {
    if m < n { ValZeros(f, m, n - 1); }
  }

  lemma ValueUpTo(ws: seq<Word>, n: nat)
    requires n >= BITS * |ws|
    ensures Val(BitsOf(ws), n) == Value(ws)
  {
    forall i: nat | BITS * |ws| <= i < n ensures !BitsOf(ws)(i) {
      assert i / BITS >= |ws|;
    }
    ValZeros(BitsOf(ws), BITS * |ws|, n);
  }

  /** `b` holds the bits of `a` from the `c`-th on. */
  ghost predicate ShiftedDown(a: seq<Word>, b: seq<Word>, c: nat)
  {
    forall i: nat :: DownAt(a, b, c, i)
  }

  predicate DownAt(a: seq<Word>, b: seq<Word>, c: nat, i: nat)
  {
    Bit(b, i) == Bit(a, i + c)
  }

  lemma {:induction false} DownIsDivision(a: seq<Word>, b: seq<Word>, c: nat)
    requires ShiftedDown(a, b, c)
    ensures Value(b) == Value(a) / Pow2(c)
  {
    var n := BITS * |a| + BITS * |b|;
    forall i: nat | i < n ensures BitsOf(b)(i) == BitsOf(a)(i + c) { assert DownAt(a, b, c, i); }
    ValSplits(BitsOf(a), BitsOf(b), c, n);
    ValueUpTo(a, c + n);
    ValueUpTo(b, n);
    ValBound(BitsOf(a), c);
    DivUnique(Value(a), Pow2(c), Value(b), Val(BitsOf(a), c));
  }

  /** `b` holds the bits of `a`, each `c` places higher, as far as there is room. */
  ghost predicate ShiftedUp(a: seq<Word>, b: seq<Word>, c: nat)
  {
    forall i: nat :: i < BITS * |b| ==> UpAt(a, b, c, i)
  }

  predicate UpAt(a: seq<Word>, b: seq<Word>, c: nat, i: nat)
  {
    Bit(b, i) <==> i >= c && Bit(a, i - c)
  }

  /** The bits from the `c`-th on. */
  function From(f: nat -> bool, c: nat): nat -> bool
  {
    (i: nat) => f(i + c)
  }

  lemma SplitAt(f: nat -> bool, c: nat, n: nat)
    ensures Val(f, c + n) == Val(f, c) + Pow2(c) * Val(From(f, c), n)
  {
    ValSplits(f, From(f, c), c, n);
  }

  lemma {:induction false} UpIsProduct(a: seq<Word>, b: seq<Word>, c: nat)
    requires ShiftedUp(a, b, c)
    ensures Value(b) == Value(a) * Pow2(c) % Pow2(BITS * |b|)
  {
    if c > BITS * |b| { UpBeyond(a, b, c); } else { UpWithin(a, b, c); }
  }

  lemma {:induction false} UpBeyond(a: seq<Word>, b: seq<Word>, c: nat)
    requires ShiftedUp(a, b, c) && c > BITS * |b|
    ensures Value(b) == Value(a) * Pow2(c) % Pow2(BITS * |b|)
  {
    var n := BITS * |b|;
    NoneBelow(a, b, c, n);
    Vanishes(Value(a), n, c);
  }

  lemma NoneBelow(a: seq<Word>, b: seq<Word>, c: nat, n: nat)
    requires ShiftedUp(a, b, c) && n <= c && n <= BITS * |b|
    ensures Val(BitsOf(b), n) == 0
  {
    forall i: nat | 0 <= i < n ensures !BitsOf(b)(i) { assert UpAt(a, b, c, i); }
    ValZeros(BitsOf(b), 0, n);
  }

  lemma Vanishes(v: nat, n: nat, c: nat)
    requires n <= c
    ensures v * Pow2(c) % Pow2(n) == 0
  {
    var d := c - n;
    assert Pow2(c) == Pow2(n) * Pow2(d) by { Pow2Adds(n, d); }
    Multiple(v, Pow2(n), Pow2(d));
  }

  lemma Multiple(v: nat, p: nat, q: nat)
    requires p > 0
    ensures v * (p * q) % p == 0
  {
    Rearranged(v, p, q);
    DivUnique(v * (p * q), p, v * q, 0);
  }

  lemma {:induction false} UpWithin(a: seq<Word>, b: seq<Word>, c: nat)
    requires ShiftedUp(a, b, c) && c <= BITS * |b|
    ensures Value(b) == Value(a) * Pow2(c) % Pow2(BITS * |b|)
  {
    var n := BITS * |b|;
    var k := n - c;
    UpLow(a, b, c);
    UpHigh(a, k);
    ValBound(BitsOf(b), n);
    assert Pow2(n) == Pow2(c) * Pow2(k) by { assert c + k == n; Pow2Adds(c, k); }
    ProductMod(Value(a), Pow2(c), Val(BitsOf(a), k), Pow2(k), Val(From(BitsOf(a), k), BITS * |a|), Value(b));
  }

  lemma {:induction false} UpHigh(a: seq<Word>, n: nat)
    ensures Value(a) == Val(BitsOf(a), n) + Pow2(n) * Val(From(BitsOf(a), n), BITS * |a|)
  {
    SplitAt(BitsOf(a), n, BITS * |a|);
    ValueUpTo(a, n + BITS * |a|);
  }

  lemma ProductMod(v: nat, p: nat, low: nat, q: nat, high: nat, w: nat)
    requires v == low + q * high && w == p * low && w < p * q
    ensures v * p % (p * q) == w
  {
    Regrouped(p, low, q, high);
    DivUnique(v * p, p * q, high, w);
  }

  lemma {:induction false} UpLow(a: seq<Word>, b: seq<Word>, c: nat)
    requires ShiftedUp(a, b, c) && c <= BITS * |b|
    ensures Value(b) == Pow2(c) * Val(BitsOf(a), BITS * |b| - c)
  {
    var n := BITS * |b|;
    var k := n - c;
    NoneBelow(a, b, c, c);
    forall i: nat | i < k ensures BitsOf(a)(i) == BitsOf(b)(i + c) { UpBit(a, b, c, i); }
    ValSplits(BitsOf(b), BitsOf(a), c, k);
    assert c + k == n;
  }

  lemma UpBit(a: seq<Word>, b: seq<Word>, c: nat, i: nat)
    requires ShiftedUp(a, b, c) && i + c < BITS * |b|
    ensures Bit(a, i) == Bit(b, i + c)
  {
    assert UpAt(a, b, c, i + c);
  }

  lemma Rearranged(a: nat, b: nat, c: nat)
    ensures a * (b * c) == b * (a * c)
  {}

  lemma Regrouped(p: nat, low: nat, q: nat, high: nat)
    ensures (low + q * high) * p == p * low + (p * q) * high
  {}

  /** `w` holds the `n` bits of `a` from the `c`-th on, and nothing else. */
  ghost predicate SlicedFrom(a: seq<Word>, w: Word, c: nat, n: nat)
    requires n <= BITS
  {
    forall i: nat :: i < BITS ==> (w[i] <==> i < n && Bit(a, c + i))
  }

  lemma {:induction false} SliceIsDivMod(a: seq<Word>, w: Word, c: nat, n: nat)
    requires n <= BITS && SlicedFrom(a, w, c, n)
    ensures Value([w]) == Value(a) / Pow2(c) % Pow2(n)
  {
    SliceLow(a, w, c, n);
    LowIsDivMod(a, c, n, BITS * |a|);
  }

  lemma LowIsDivMod(a: seq<Word>, c: nat, n: nat, m: nat)
    requires m >= BITS * |a|
    ensures Val(From(BitsOf(a), c), n) == Value(a) / Pow2(c) % Pow2(n)
  {
    FromIsDiv(a, c, n + m);
    LowIsMod(From(BitsOf(a), c), n, m);
  }

  lemma LowIsMod(h: nat -> bool, n: nat, m: nat)
    ensures Val(h, n + m) % Pow2(n) == Val(h, n)
  {
    SplitAt(h, n, m);
    ValBound(h, n);
    DivUnique(Val(h, n + m), Pow2(n), Val(From(h, n), m), Val(h, n));
  }

  lemma {:induction false} FromIsDiv(a: seq<Word>, c: nat, n: nat)
    requires n >= BITS * |a|
    ensures Val(From(BitsOf(a), c), n) == Value(a) / Pow2(c)
  {
    var low, high := Val(BitsOf(a), c), Val(From(BitsOf(a), c), n);
    assert Value(a) == low + Pow2(c) * high by {
      SplitAt(BitsOf(a), c, n);
      ValueUpTo(a, c + n);
    }
    ValBound(BitsOf(a), c);
    DivUnique(Value(a), Pow2(c), high, low);
  }

  lemma {:induction false} SliceLow(a: seq<Word>, w: Word, c: nat, n: nat)
    requires n <= BITS && SlicedFrom(a, w, c, n)
    ensures Value([w]) == Val(From(BitsOf(a), c), n)
  {
    var g, h := BitsOf([w]), From(BitsOf(a), c);
    forall i: nat | i < BITS ensures g(i) == (i < n && h(i)) {
      assert i / BITS == 0 && i % BITS == i;
    }
    ValZeros(g, n, BITS);
    ValSame(g, h, n);
  }
}
