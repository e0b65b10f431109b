/** Bit vectors: shifts, slices and scans over an array of machine words. */
module Bitvec {
  import opened Arithmetic
  import opened Bits

  // ---------- bits of a list of words ----------

  /** The least set bit at or after `start`, if there is one. */
  ghost predicate LeastSet(ws: seq<Word>, start: nat, r: int)
  {
    if r == -1 then forall i: nat :: i >= start ==> !Bit(ws, i)
    else r >= start && Bit(ws, r) && forall i: nat :: start <= i < r ==> !Bit(ws, i)
  }

  ghost predicate LeastClear(ws: seq<Word>, start: nat, r: nat)
  {
    r >= start && !Bit(ws, r) && forall i: nat :: start <= i < r ==> Bit(ws, i)
  }

  /** The greatest set bit below `n`, or -1. */
  ghost predicate GreatestSet(ws: seq<Word>, n: nat, r: int)
  {
    && -1 <= r < n && (r >= 0 ==> Bit(ws, r))
    && forall i: nat :: r < i < n ==> !Bit(ws, i)
  }

  lemma BitAt(ws: seq<Word>, k: nat, j: nat)
    requires j < BITS
    ensures (k * BITS + j) / BITS == k && (k * BITS + j) % BITS == j
    ensures Bit(ws, k * BITS + j) <==> k < |ws| && ws[k][j]
  {}

  lemma Split(i: nat)
    ensures i == (i / BITS) * BITS + i % BITS && i % BITS < BITS
  {}

  /** Count trailing zeros. */
  function Ctz(w: Word): (r: nat)
    requires w != Fill(false)
    ensures r < BITS && w[r] && forall i :: 0 <= i < r ==> !w[i]
  {
    CtzFrom(w, 0)
  }

  function CtzFrom(w: Word, k: nat): (r: nat)
    requires w != Fill(false) && k < BITS && forall i :: 0 <= i < k ==> !w[i]
    ensures r < BITS && w[r] && forall i :: 0 <= i < r ==> !w[i]
    decreases BITS - k
  {
    if w[k] then k else
      NotLast(w, k);
      CtzFrom(w, k + 1)
  }

  lemma NotLast(w: Word, k: nat)
    requires w != Fill(false) && k < BITS && forall i :: 0 <= i <= k ==> !w[i]
    ensures k + 1 < BITS
  {
    assert k + 1 == BITS ==> w == Fill(false);
  }

  /** Count leading zeros. */
  function Clz(w: Word): (r: nat)
    requires w != Fill(false)
    ensures r < BITS && w[BITS - 1 - r] && forall i :: BITS - 1 - r < i < BITS ==> !w[i]
  {
    ClzFrom(w, 0)
  }

  function ClzFrom(w: Word, k: nat): (r: nat)
    requires w != Fill(false) && k < BITS && forall i :: BITS - k <= i < BITS ==> !w[i]
    ensures r < BITS && w[BITS - 1 - r] && forall i :: BITS - 1 - r < i < BITS ==> !w[i]
    decreases BITS - k
  {
    if w[BITS - 1 - k] then k else
      NotFirst(w, k);
      ClzFrom(w, k + 1)
  }

  lemma NotFirst(w: Word, k: nat)
    requires w != Fill(false) && k < BITS && forall i :: BITS - 1 - k <= i < BITS ==> !w[i]
    ensures k + 1 < BITS
  {
    assert k + 1 == BITS ==> w == Fill(false);
  }

  // ---------- single words of a shift ----------

  /** The `i`-th word of `a` shifted down by `off` words and `n` bits. */
  function DownWord(a: seq<Word>, off: nat, n: nat, i: nat): Word
    requires n < BITS
  {
    if i + off >= |a| then Fill(false)
    else if n > 0 && i + off + 1 < |a| then Or(Shr(a[i + off], n), Shl(a[i + off + 1], BITS - n))
    else Shr(a[i + off], n)
  }

  lemma DownWordIs(a: seq<Word>, off: nat, n: nat, i: nat, j: nat)
    requires n < BITS && j < BITS
    ensures DownWord(a, off, n, i)[j] <==> Bit(a, i * BITS + j + (off * BITS + n))
  {
    if j + n < BITS { DownWordLow(a, off, n, i, j); } else { DownWordHigh(a, off, n, i, j); }
    BitBelow(a, off, n, i, j);
  }

  lemma BitBelow(a: seq<Word>, off: nat, n: nat, i: nat, j: nat)
    requires n < BITS && j < BITS
    ensures Bit(a, i * BITS + j + (off * BITS + n)) <==>
      if j + n < BITS then i + off < |a| && a[i + off][j + n] else i + off + 1 < |a| && a[i + off + 1][j + n - BITS]
  {
    if j + n < BITS {
      BitIs(a, i * BITS + j + (off * BITS + n), i + off, j + n);
    } else {
      BitIs(a, i * BITS + j + (off * BITS + n), i + off + 1, j + n - BITS);
    }
  }

  lemma BitIs(a: seq<Word>, p: nat, k: nat, j: nat)
    requires j < BITS && p == k * BITS + j
    ensures Bit(a, p) <==> k < |a| && a[k][j]
  {
    BitAt(a, k, j);
  }

  lemma DownWordLow(a: seq<Word>, off: nat, n: nat, i: nat, j: nat)
    requires j + n < BITS
    ensures DownWord(a, off, n, i)[j] <==> i + off < |a| && a[i + off][j + n]
  {}

  lemma DownWordHigh(a: seq<Word>, off: nat, n: nat, i: nat, j: nat)
    requires n < BITS && j < BITS <= j + n
    ensures DownWord(a, off, n, i)[j] <==> i + off + 1 < |a| && a[i + off + 1][j + n - BITS]
  {}

  lemma DownIsShift(a: seq<Word>, b: seq<Word>, off: nat, n: nat)
    requires n < BITS && |b| == |a| && forall i :: 0 <= i < |a| ==> b[i] == DownWord(a, off, n, i)
    ensures ShiftedDown(a, b, off * BITS + n)
  {
    var c := off * BITS + n;
    forall i: nat ensures DownAt(a, b, c, i) {
      Split(i);
      DownBitIs(a, b, off, n, i);
    }
  }

  lemma DownBitIs(a: seq<Word>, b: seq<Word>, off: nat, n: nat, i: nat)
    requires n < BITS && |b| == |a| && (i / BITS < |a| ==> b[i / BITS] == DownWord(a, off, n, i / BITS))
    ensures DownAt(a, b, off * BITS + n, i)
  {
    Split(i);
    DownWordIs(a, off, n, i / BITS, i % BITS);
    if i / BITS >= |a| { PastEnd(a, i + off * BITS + n); }
  }

  lemma PastEnd(a: seq<Word>, i: nat)
    requires i >= |a| * BITS
    ensures !Bit(a, i)
  {
    assert i / BITS >= |a|;
  }

  /** The `i`-th word of `a` shifted up by `off` words and `n` bits. */
  function UpWord(a: seq<Word>, off: nat, n: nat, i: nat): Word
    requires n < BITS && i < |a|
  {
    if i < off then Fill(false)
    else if n > 0 && i > off then Or(Shl(a[i - off], n), Shr(a[i - off - 1], BITS - n))
    else Shl(a[i - off], n)
  }

  lemma UpWordIs(a: seq<Word>, off: nat, n: nat, i: nat, j: nat)
    requires n < BITS && j < BITS && i < |a|
    ensures (var k, c := i * BITS + j, off * BITS + n; UpWord(a, off, n, i)[j] <==> k >= c && Bit(a, k - c))
  {
    UpWordAt(a, off, n, i, j);
    BitAbove(a, off, n, i, j);
  }

  lemma BitAbove(a: seq<Word>, off: nat, n: nat, i: nat, j: nat)
    requires n < BITS && j < BITS && i < |a|
    ensures (var k, c := i * BITS + j, off * BITS + n;
      k >= c && Bit(a, k - c) <==>
      if i >= off && j >= n then a[i - off][j - n] else i > off && a[i - off - 1][BITS + j - n])
  {
    if i >= off && j >= n {
      BitIs(a, i * BITS + j - (off * BITS + n), i - off, j - n);
    } else if i > off {
      BitIs(a, i * BITS + j - (off * BITS + n), i - off - 1, BITS + j - n);
    } else {
      Lower(i, off, j, n);
    }
  }

  lemma Lower(i: nat, off: nat, j: nat, n: nat)
    requires j < BITS && (i < off || (i == off && j < n))
    ensures i * BITS + j < off * BITS + n
  {}

  lemma UpWordAt(a: seq<Word>, off: nat, n: nat, i: nat, j: nat)
    requires n < BITS && j < BITS && i < |a|
    ensures i >= off && j >= n ==> UpWord(a, off, n, i)[j] == a[i - off][j - n]
    ensures i > off && j < n ==> UpWord(a, off, n, i)[j] == a[i - off - 1][BITS + j - n]
    ensures i < off || (i == off && j < n) ==> !UpWord(a, off, n, i)[j]
  {}

  lemma UpIsShift(a: seq<Word>, b: seq<Word>, off: nat, n: nat)
    requires n < BITS && |b| == |a| && forall i :: 0 <= i < |a| ==> b[i] == UpWord(a, off, n, i)
    ensures ShiftedUp(a, b, off * BITS + n)
  {
    var c := off * BITS + n;
    forall i: nat | i < BITS * |b| ensures UpAt(a, b, c, i) {
      Split(i);
      UpWordIs(a, off, n, i / BITS, i % BITS);
    }
  }

  // ---------- dropping and adding zero words ----------

  ghost predicate SameBits(a: seq<Word>, b: seq<Word>)
  {
    forall i: nat :: SameAt(a, b, i)
  }

  predicate SameAt(a: seq<Word>, b: seq<Word>, i: nat)
  {
    Bit(a, i) == Bit(b, i)
  }

  lemma DropZero(a: seq<Word>)
    requires |a| > 0 && a[|a| - 1] == Fill(false)
    ensures SameBits(a, a[..|a| - 1])
  {
    var b := a[..|a| - 1];
    forall i: nat ensures SameAt(a, b, i) {
      Split(i);
    }
  }

  lemma SameTwice(a: seq<Word>, b: seq<Word>, c: seq<Word>)
    requires SameBits(a, b) && SameBits(b, c)
    ensures SameBits(a, c)
  {
    forall i: nat ensures SameAt(a, c, i) { assert SameAt(a, b, i) && SameAt(b, c, i); }
  }

  lemma AddZeros(a: seq<Word>, b: seq<Word>)
    requires |a| <= |b| && b[..|a|] == a && forall i :: |a| <= i < |b| ==> b[i] == Fill(false)
    ensures SameBits(a, b)
  {
    forall i: nat ensures SameAt(a, b, i) {
      Split(i);
      if i / BITS < |a| { assert b[i / BITS] == b[..|a|][i / BITS]; }
    }
  }

  // ---------- how large the result of a shift up is ----------

  function NeedSize(max: int, count: nat): (n: nat)
    requires max >= -1
    ensures n * BITS >= max + count
  {
    (max + count + BITS - 1) / BITS
  }

  function BitLength(m: nat): nat
  {
    if m == 0 then 0 else 1 + BitLength(m / 2)
  }

  /** The size that `expand` makes of the one it is asked for. */
  function Rounded(n: nat): (r: nat)
    ensures r >= n
  {
    var p := Pow2(BitLength(n / 8));
    RoundsUp(n, p);
    (n + (p - 1)) / p * p
  }

  lemma RoundsUp(n: nat, p: nat)
    requires p > 0
    ensures (n + (p - 1)) / p * p >= n
  {
    var x := n + (p - 1);
    assert x == p * (x / p) + x % p;
  }

  /** Shifting up loses nothing exactly if there is room for the greatest bit that is set. */
  lemma {:induction false} ExactIff(a: seq<Word>, b: seq<Word>, c: nat, max: int)
    requires ShiftedUp(a, b, c) && GreatestSet(a, BITS * |a|, max)
    ensures Value(b) == Value(a) * Pow2(c) <==> max < 0 || max + c < BITS * |b|
  {
    var n, v := BITS * |b|, Value(a);
    UpIsProduct(a, b, c);
    GreatestIsLog(a, max);
    if max < 0 {
      assert v * Pow2(c) == 0;
      DivUnique(0, Pow2(n), 0, 0);
    } else {
      ProductFits(v, max, c, n);
    }
  }

  lemma ProductFits(v: nat, max: nat, c: nat, n: nat)
    requires Pow2(max) <= v < Pow2(max + 1)
    ensures v * Pow2(c) % Pow2(n) == v * Pow2(c) <==> max + c < n
  {
    var x := v * Pow2(c);
    assert Pow2(max + c) <= x by { Pow2Adds(max, c); MulMono(Pow2(c), Pow2(max), v); }
    assert x < Pow2(max + 1 + c) by { Pow2Adds(max + 1, c); TimesStrict(v, Pow2(max + 1), Pow2(c)); }
    if max + c < n {
      Pow2Grows(max + 1 + c, n);
      DivUnique(x, Pow2(n), 0, x);
    } else {
      Pow2Grows(n, max + c);
    }
  }

  /** The greatest set bit is the logarithm. */
  lemma GreatestIsLog(a: seq<Word>, max: int)
    requires GreatestSet(a, BITS * |a|, max)
    ensures max < 0 ==> Value(a) == 0
    ensures max >= 0 ==> Pow2(max) <= Value(a) < Pow2(max + 1)
  {
    var f := BitsOf(a);
    ValZeros(f, max + 1, BITS * |a|);
    ValBound(f, max + 1);
  }

  lemma TimesStrict(a: nat, b: nat, c: nat)
    requires a < b && c > 0
    ensures a * c < b * c
  {}

  /** The size that `<<=` leaves. */
  function SizeAfter(size: nat, max: int, count: nat): nat
    requires max >= -1
  {
    if NeedSize(max, count) > size then Rounded(NeedSize(max, count)) else size
  }

  /** The shift up is exact unless the greatest bit that is set would land on the very first bit
      behind the words there are: then the size computed is one word short. */
  lemma {:induction false} OneWordShortIff(a: seq<Word>, b: seq<Word>, c: nat, max: int)
    requires ShiftedUp(a, b, c) && GreatestSet(a, BITS * |a|, max) && |b| == SizeAfter(|a|, max, c)
    ensures Value(b) != Value(a) * Pow2(c) <==> max >= 0 && max + c == BITS * |b|
  {
    ExactIff(a, b, c, max);
    assert |b| >= NeedSize(max, c);
    assert BITS * |b| >= max + c;
  }

  // ---------- the vector ----------

  class BitVector {
    var words: array<Word>
    var size: nat

    ghost predicate Valid()
      reads this
    {
      1 <= size <= words.Length
    }

    ghost function Words(): seq<Word>
      reads this, words
      requires Valid()
    {
      words[..size]
    }

    constructor (v: Word)
      ensures Valid() && Words() == [v] && fresh(words)
    {
      words := new Word[1](i => v);
      size := 1;
    }

    function WordAt(i: nat): Word
      reads this, words
      requires Valid()
    {
      if i < size then words[i] else Fill(false)
    }

    method Expand(newsize: nat)
      requires Valid() && newsize > size
      modifies this
      ensures Valid() && size == Rounded(newsize) && fresh(words) && SameBits(old(Words()), Words())
      ensures Words()[..old(size)] == old(Words())
    {
      var n := Rounded(newsize);
      ghost var before := Words();
      var olds := words;
      var m := size;
      var news := new Word[n](i => Fill(false));
      for i := 0 to m
        invariant olds[..m] == before
        invariant forall k :: 0 <= k < i ==> news[k] == before[k]
        invariant forall k :: i <= k < n ==> news[k] == Fill(false)
      {
        news[i] := olds[i];
      }
      words, size := news, n;
      assert Words()[..m] == before;
      AddZeros(before, Words());
    }

    /** `>>=` divides by a power of two and leaves no zero word at the top. */
    method ShiftRight(count: nat)
      requires Valid()
      modifies this, words
      ensures Valid() && words == old(words)
      ensures ShiftedDown(old(Words()), Words(), count)
      ensures Value(Words()) == Value(old(Words())) / Pow2(count)
      ensures size == 1 || words[size - 1] != Fill(false)
    {
      ghost var a := Words();
      ShiftWordsDown(count / BITS, count % BITS);
      ghost var b := Words();
      Trim();
      DownThenTrim(a, b, Words(), count);
    }

    /** The words, each from the two it is put together of, the lowest first. */
    method ShiftWordsDown(off: nat, n: nat)
      requires Valid() && n < BITS
      modifies words
      ensures Valid() && ShiftedDown(old(Words()), Words(), off * BITS + n)
    {
      ghost var a := Words();
      if size == 1 {
        words[0] := if off > 0 then Fill(false) else Shr(words[0], n);
      } else {
        for i := 0 to size
          invariant |a| == size
          invariant forall k :: 0 <= k < i ==> words[k] == DownWord(a, off, n, k)
          invariant forall k :: i <= k < size ==> words[k] == a[k]
        {
          if i + off < size {
            words[i] := Shr(words[i + off], n);
            if n > 0 && i + off + 1 < size {
              words[i] := Or(words[i], Shl(words[i + off + 1], BITS - n));
            }
          } else {
            words[i] := Fill(false);
          }
        }
      }
      DownIsShift(a, Words(), off, n);
    }

    /** Drops the zero words at the top. */
    method Trim()
      requires Valid()
      modifies this`size
      ensures Valid() && SameBits(old(Words()), Words())
      ensures size == 1 || words[size - 1] != Fill(false)
    {
      while size > 1 && words[size - 1] == Fill(false)
        invariant Valid() && SameBits(old(Words()), Words())
        decreases size
      {
        DropZero(Words());
        assert words[..size - 1] == Words()[..size - 1];
        SameTwice(old(Words()), Words(), words[..size - 1]);
        size := size - 1;
      }
    }

    /** The index of the greatest bit that is set, or -1. */
    method Max() returns (idx: int)
      requires Valid()
      ensures GreatestSet(Words(), BITS * size, idx)
    {
      idx := size * BITS - 1;
      while idx >= 0
        invariant -1 <= idx < BITS * size
        invariant forall i: nat :: idx < i < BITS * size ==> !Bit(Words(), i)
      {
        Split(idx);
        var w := Shl(WordAt(idx / BITS), BITS - 1 - idx % BITS);
        if w != Fill(false) {
          var r := Clz(w);
          TopOfWord(Words(), idx, w, r);
          return idx - r;
        }
        NoneInWord(Words(), idx, w);
        idx := idx / BITS * BITS - 1;
      }
    }

    /** `<<=` multiplies by a power of two, modulo what the words can hold.  A shift of a single word
        by its width or more, which the language leaves undefined, is left out. */
    method ShiftLeft(count: nat)
      requires Valid()
      requires size == 1 && (forall max :: GreatestSet(Words(), BITS, max) ==> NeedSize(max, count) <= 1)
        ==> count < BITS
      modifies this, words
      ensures Valid() && (words == old(words) || fresh(words))
      ensures forall max ::
        GreatestSet(old(Words()), BITS * old(size), max) ==> size == SizeAfter(old(size), max, count)
      ensures ShiftedUp(old(Words()), Words(), count)
      ensures Value(Words()) == Value(old(Words())) * Pow2(count) % Pow2(BITS * size)
    {
      ghost var a := Words();
      var max := Max();
      forall m | GreatestSet(a, BITS * size, m) ensures m == max { OneGreatest(a, BITS * size, m, max); }
      var needsize := NeedSize(max, count);
      if needsize > size { Expand(needsize); }
      ghost var b := Words();
      ShiftWordsUp(count / BITS, count % BITS);
      ExpandThenUp(a, b, Words(), count);
    }

    /** The words, each from the two it is put together of, the highest first. */
    method ShiftWordsUp(off: nat, n: nat)
      requires Valid() && n < BITS && (size == 1 ==> off == 0)
      modifies words
      ensures Valid() && ShiftedUp(old(Words()), Words(), off * BITS + n)
    {
      ghost var a := Words();
      if size == 1 {
        words[0] := Shl(words[0], n);
      } else {
        var i := size - 1;
        while i >= 0
          invariant -1 <= i < size == |a|
          invariant forall k :: i < k < size ==> words[k] == UpWord(a, off, n, k)
          invariant forall k :: 0 <= k <= i ==> words[k] == a[k]
        {
          if i >= off {
            words[i] := Shl(words[i - off], n);
            if n > 0 && i > off {
              words[i] := Or(words[i], Shr(words[i - off - 1], BITS - n));
            }
          } else {
            words[i] := Fill(false);
          }
          i := i - 1;
        }
      }
      UpIsShift(a, Words(), off, n);
    }

    /** A slice of at most one word. */
    method GetSlice(idx: nat, sz: nat) returns (r: Word)
      requires Valid() && 1 <= sz <= BITS
      ensures SlicedFrom(Words(), r, idx, sz)
      ensures Value([r]) == Value(Words()) / Pow2(idx) % Pow2(sz)
    {
      if idx >= size * BITS {
        r := Fill(false);
        Sliced(Words(), idx, sz, 0, r);
      } else {
        var n := if idx + sz > size * BITS then size * BITS - idx else sz;
        if size > 1 {
          var shift, q := idx % BITS, idx / BITS;
          r := Shr(words[q], shift);
          if shift != 0 && q + 1 < size {
            r := Or(r, Shl(words[q + 1], BITS - shift));
          }
        } else {
          r := Shr(words[0], idx);
        }
        r := And(r, LowMask(n));
        Sliced(Words(), idx, sz, n, r);
      }
      SliceIsDivMod(Words(), r, idx, sz);
    }

    /** The index of the least bit set from `start` on, or -1. */
    method Ffs(start: nat) returns (r: int)
      requires Valid()
      ensures LeastSet(Words(), start, r)
    {
      var val := Shl(Fill(true), start % BITS);
      var idx := start / BITS;
      Split(start);
      while idx < size
        invariant forall j :: 0 <= j < BITS ==> (val[j] <==> idx * BITS + j >= start)
        invariant forall i: nat :: start <= i < idx * BITS ==> !Bit(Words(), i)
        decreases size - idx
      {
        var w := And(val, words[idx]);
        if w != Fill(false) {
          LowestOfWord(Words(), start, idx, w);
          return idx * BITS + Ctz(w);
        }
        NoneFrom(Words(), start, idx, w);
        idx, val := idx + 1, Fill(true);
      }
      forall i: nat | i >= start ensures !Bit(Words(), i) {
        if i >= idx * BITS { PastEnd(Words(), i); }
      }
      r := -1;
    }

    /** The index of the least bit clear from `start` on: behind the words all bits are clear. */
    method Ffz(start: nat) returns (r: nat)
      requires Valid()
      ensures LeastClear(Words(), start, r)
    {
      var val := Not(Shl(Fill(true), start % BITS));
      var idx := start / BITS;
      Split(start);
      while true
        invariant start / BITS <= idx
        invariant forall j :: 0 <= j < BITS ==> (val[j] <==> idx * BITS + j < start)
        invariant forall i: nat :: start <= i < idx * BITS ==> Bit(Words(), i)
        decreases if idx <= size then size + 1 - idx else 0
      {
        var w := Not(Or(val, WordAt(idx)));
        if w != Fill(false) {
          ClearInWord(Words(), start, idx, val, w);
          return idx * BITS + Ctz(w);
        }
        NoneClear(Words(), start, idx, val, w);
        idx, val := idx + 1, Fill(false);
      }
    }

    /** `++` of an iterator over the bits set: from -1, the first one. */
    method Next(from: int) returns (idx: int)
      requires Valid() && from >= -1
      ensures LeastSet(Words(), from + 1, idx)
    {
      idx := from + 1;
      while idx < size * BITS
        invariant idx > from
        invariant forall i: nat :: from < i < idx ==> !Bit(Words(), i)
        decreases size * BITS - idx
      {
        Split(idx);
        var w := Shr(words[idx / BITS], idx % BITS);
        if w != Fill(false) {
          LowestFrom(Words(), idx, w);
          return idx + Ctz(w);
        }
        NoneAbove(Words(), idx, w);
        idx := idx / BITS * BITS + BITS;
      }
      forall i: nat | i >= from + 1 ensures !Bit(Words(), i) {
        if i >= idx { PastEnd(Words(), i); }
      }
      idx := -1;
    }

    /** The runs of contiguous bits set, as an iteration over them yields them. */
    method Ranges() returns (rs: seq<(nat, nat)>)
      requires Valid()
      ensures forall k :: 0 <= k < |rs| ==> MaximalRun(Words(), rs[k])
      ensures forall k, m :: 0 <= k < m < |rs| ==> rs[k].1 + 1 < rs[m].0
      ensures forall i: nat :: Bit(Words(), i) <==> Covered(rs, i)
    {
      rs := [];
      var ptr := Ffs(0);
      ghost var seen: nat, ws := 0, Words();
      while ptr >= 0
        invariant -1 <= ptr && LeastSet(ws, seen, ptr) && RunsBelow(ws, rs, seen)
        decreases size * BITS - seen
      {
        var run;
        run, ptr := NextRange(rs, seen, ptr);
        rs, seen := rs + [run], run.1 + 1;
      }
      AllRuns(ws, rs, seen);
    }

    /** `++` of an iterator over the runs. */
    method NextRange(ghost rs: seq<(nat, nat)>, ghost seen: nat, first: nat) returns (run: (nat, nat), ptr: int)
      requires Valid() && LeastSet(Words(), seen, first) && RunsBelow(Words(), rs, seen)
      ensures seen <= run.1 < size * BITS && RunsBelow(Words(), rs + [run], run.1 + 1)
      ensures -1 <= ptr && LeastSet(Words(), run.1 + 1, ptr)
    {
      var second: nat;
      second, ptr := RunFrom(first);
      PastEndOr(Words(), second);
      NextRun(Words(), rs, seen, first, second);
      run := (first, second);
    }

    /** The run that begins at `first`, and the bit set next. */
    method RunFrom(first: nat) returns (second: nat, ptr: int)
      requires Valid() && Bit(Words(), first)
      ensures first <= second && !Bit(Words(), second + 1) && LeastSet(Words(), second + 1, ptr)
      ensures forall i: nat :: first <= i <= second ==> Bit(Words(), i)
    {
      second := first;
      PastEndOr(Words(), first);
      ptr := Next(first);
      while ptr >= 0 && second + 1 == ptr
        invariant first <= second && LeastSet(Words(), second + 1, ptr)
        invariant forall i: nat :: first <= i <= second ==> Bit(Words(), i)
        decreases size * BITS - second
      {
        PastEndOr(Words(), ptr);
        second := second + 1;
        ptr := Next(ptr);
      }
    }
  }

  function LowMask(n: nat): (m: Word)
    requires 1 <= n <= BITS
    ensures forall i :: 0 <= i < BITS ==> (m[i] <==> i < n)
  {
    Not(Shl(Not(Fill(false)[0 := true]), n - 1))
  }

  lemma Sliced(a: seq<Word>, idx: nat, sz: nat, n: nat, r: Word)
    requires 1 <= sz <= BITS && n <= sz && (n < sz ==> idx + n >= |a| * BITS)
    requires n > 0 ==> r == And(DownWord(a, idx / BITS, idx % BITS, 0), LowMask(n))
    requires n == 0 ==> r == Fill(false)
    ensures SlicedFrom(a, r, idx, sz)
  {
    Split(idx);
    forall i: nat | i < BITS ensures r[i] <==> i < sz && Bit(a, idx + i) {
      DownWordIs(a, idx / BITS, idx % BITS, 0, i);
      if n <= i < sz { PastEnd(a, idx + i); }
    }
  }

  lemma LowestOfWord(ws: seq<Word>, start: nat, idx: nat, w: Word)
    requires idx < |ws| && w != Fill(false)
    requires forall j :: 0 <= j < BITS ==> (w[j] <==> idx * BITS + j >= start && ws[idx][j])
    requires forall i: nat :: start <= i < idx * BITS ==> !Bit(ws, i)
    ensures LeastSet(ws, start, idx * BITS + Ctz(w))
  {
    BitAt(ws, idx, Ctz(w));
    forall i: nat | start <= i < idx * BITS + Ctz(w) ensures !Bit(ws, i) {
      if i >= idx * BITS { BitAt(ws, idx, i - idx * BITS); }
    }
  }

  lemma NoneFrom(ws: seq<Word>, start: nat, idx: nat, w: Word)
    requires idx < |ws| && w == Fill(false)
    requires forall j :: 0 <= j < BITS ==> (w[j] <==> idx * BITS + j >= start && ws[idx][j])
    requires forall i: nat :: start <= i < idx * BITS ==> !Bit(ws, i)
    ensures forall i: nat :: start <= i < (idx + 1) * BITS ==> !Bit(ws, i)
  {
    forall i: nat | start <= i < (idx + 1) * BITS ensures !Bit(ws, i) {
      if i >= idx * BITS {
        BitAt(ws, idx, i - idx * BITS);
        assert !w[i - idx * BITS];
      }
    }
  }

  /** The `idx`-th word, or zeros behind the last. */
  function WordOf(ws: seq<Word>, idx: nat): Word
  {
    if idx < |ws| then ws[idx] else Fill(false)
  }

  lemma ClearInWord(ws: seq<Word>, start: nat, idx: nat, val: Word, w: Word)
    requires w == Not(Or(val, WordOf(ws, idx))) && w != Fill(false)
    requires forall j :: 0 <= j < BITS ==> (val[j] <==> idx * BITS + j < start)
    requires forall i: nat :: start <= i < idx * BITS ==> Bit(ws, i)
    ensures LeastClear(ws, start, idx * BITS + Ctz(w))
  {
    BitAt(ws, idx, Ctz(w));
    forall i: nat | start <= i < idx * BITS + Ctz(w) ensures Bit(ws, i) {
      if i >= idx * BITS {
        BitAt(ws, idx, i - idx * BITS);
        assert !w[i - idx * BITS];
      }
    }
  }

  lemma NoneClear(ws: seq<Word>, start: nat, idx: nat, val: Word, w: Word)
    requires w == Not(Or(val, WordOf(ws, idx))) && w == Fill(false)
    requires forall j :: 0 <= j < BITS ==> (val[j] <==> idx * BITS + j < start)
    requires forall i: nat :: start <= i < idx * BITS ==> Bit(ws, i)
    requires start / BITS <= idx
    ensures idx < |ws| && forall i: nat :: start <= i < (idx + 1) * BITS ==> Bit(ws, i)
  {
    forall i: nat | start <= i < (idx + 1) * BITS ensures Bit(ws, i) {
      if i >= idx * BITS {
        BitAt(ws, idx, i - idx * BITS);
        assert !w[i - idx * BITS];
      }
    }
    assert !w[BITS - 1];
    Split(start);
  }

  lemma LowestFrom(ws: seq<Word>, idx: nat, w: Word)
    requires idx < BITS * |ws| && w == Shr(ws[idx / BITS], idx % BITS) && w != Fill(false)
    ensures LeastSet(ws, idx, idx + Ctz(w))
  {
    var q, m, r := idx / BITS, idx % BITS, Ctz(w);
    Split(idx);
    BitAt(ws, q, m + r);
    forall i: nat | idx <= i < idx + r ensures !Bit(ws, i) {
      BitAt(ws, q, i - q * BITS);
      assert !w[i - idx];
    }
  }

  lemma NoneAbove(ws: seq<Word>, idx: nat, w: Word)
    requires idx < BITS * |ws| && w == Shr(ws[idx / BITS], idx % BITS) && w == Fill(false)
    ensures forall i: nat :: idx <= i < idx / BITS * BITS + BITS ==> !Bit(ws, i)
  {
    var q, m := idx / BITS, idx % BITS;
    Split(idx);
    forall i: nat | idx <= i < q * BITS + BITS ensures !Bit(ws, i) {
      BitAt(ws, q, i - q * BITS);
      assert !w[i - idx];
    }
  }

  // ---------- runs ----------

  /** All bits from the first to the second are set, and those next to them are not. */
  ghost predicate MaximalRun(ws: seq<Word>, r: (nat, nat))
  {
    && r.0 <= r.1
    && (forall i: nat :: r.0 <= i <= r.1 ==> Bit(ws, i))
    && !Bit(ws, r.1 + 1)
    && (r.0 > 0 ==> !Bit(ws, r.0 - 1))
  }

  ghost predicate Covered(rs: seq<(nat, nat)>, i: nat)
  {
    exists k :: 0 <= k < |rs| && rs[k].0 <= i <= rs[k].1
  }

  lemma PastEndOr(ws: seq<Word>, i: nat)
    ensures Bit(ws, i) ==> i < BITS * |ws|
  {
    if i >= BITS * |ws| { PastEnd(ws, i); }
  }

  /** The runs below `seen`, where a run has just ended. */
  ghost predicate RunsBelow(ws: seq<Word>, rs: seq<(nat, nat)>, seen: nat)
  {
    && (seen > 0 ==> !Bit(ws, seen) && Bit(ws, seen - 1))
    && (forall k :: 0 <= k < |rs| ==> MaximalRun(ws, rs[k]) && rs[k].1 < seen)
    && (forall k, m :: 0 <= k < m < |rs| ==> rs[k].1 + 1 < rs[m].0)
    && (forall i: nat :: i < seen ==> (Bit(ws, i) <==> Covered(rs, i)))
  }

  lemma AllRuns(ws: seq<Word>, rs: seq<(nat, nat)>, seen: nat)
    requires RunsBelow(ws, rs, seen) && LeastSet(ws, seen, -1)
    ensures forall k :: 0 <= k < |rs| ==> MaximalRun(ws, rs[k])
    ensures forall k, m :: 0 <= k < m < |rs| ==> rs[k].1 + 1 < rs[m].0
    ensures forall i: nat :: Bit(ws, i) <==> Covered(rs, i)
  {
    assert forall i: nat :: i >= seen ==> !Covered(rs, i);
  }

  lemma NextRun(ws: seq<Word>, rs: seq<(nat, nat)>, seen: nat, first: nat, second: nat)
    requires LeastSet(ws, seen, first) && first <= second && RunsBelow(ws, rs, seen)
    requires forall i: nat :: first <= i <= second ==> Bit(ws, i)
    requires !Bit(ws, second + 1)
    ensures RunsBelow(ws, rs + [(first, second)], second + 1)
  {
    var run, all := (first, second), rs + [(first, second)];
    assert seen > 0 ==> first > seen;
    assert MaximalRun(ws, run) by { assert first > 0 ==> first - 1 >= seen; }
    forall i: nat | i <= second ensures Bit(ws, i) <==> Covered(all, i) {
      CoveredMore(rs, run, i);
      assert i >= seen ==> !Covered(rs, i);
    }
    forall k, m | 0 <= k < m < |all| ensures all[k].1 + 1 < all[m].0 {
      assert all[k] == rs[k];
      if m < |rs| { assert all[m] == rs[m]; }
    }
    forall k | 0 <= k < |all| ensures MaximalRun(ws, all[k]) && all[k].1 < second + 1 {
      if k < |rs| { assert all[k] == rs[k]; }
    }
  }

  lemma CoveredMore(rs: seq<(nat, nat)>, run: (nat, nat), i: nat)
    ensures Covered(rs + [run], i) <==> Covered(rs, i) || run.0 <= i <= run.1
  {
    var all := rs + [run];
    if Covered(rs, i) {
      var k :| 0 <= k < |rs| && rs[k].0 <= i <= rs[k].1;
      assert all[k] == rs[k];
    }
    if Covered(all, i) {
      var k :| 0 <= k < |all| && all[k].0 <= i <= all[k].1;
      assert k < |rs| ==> rs[k] == all[k];
    }
    assert all[|rs|] == run;
  }

  lemma DownThenTrim(a: seq<Word>, b: seq<Word>, c: seq<Word>, count: nat)
    requires ShiftedDown(a, b, count / BITS * BITS + count % BITS) && SameBits(b, c)
    ensures ShiftedDown(a, c, count) && Value(c) == Value(a) / Pow2(count)
  {
    forall i: nat ensures DownAt(a, c, count, i) { assert SameAt(b, c, i) && DownAt(a, b, count, i); }
    DownIsDivision(a, c, count);
  }

  lemma ExpandThenUp(a: seq<Word>, b: seq<Word>, c: seq<Word>, count: nat)
    requires SameBits(a, b) && ShiftedUp(b, c, count / BITS * BITS + count % BITS)
    ensures ShiftedUp(a, c, count) && Value(c) == Value(a) * Pow2(count) % Pow2(BITS * |c|)
  {
    forall i: nat | i < BITS * |c| ensures UpAt(a, c, count, i) {
      assert UpAt(b, c, count, i) && (i >= count ==> SameAt(a, b, i - count));
    }
    UpIsProduct(a, c, count);
  }

  lemma OneGreatest(ws: seq<Word>, n: nat, r: int, s: int)
    requires GreatestSet(ws, n, r) && GreatestSet(ws, n, s)
    ensures r == s
  {}

  lemma TopOfWord(ws: seq<Word>, idx: nat, w: Word, r: nat)
    requires idx < BITS * |ws| && w == Shl(ws[idx / BITS], BITS - 1 - idx % BITS) && w != Fill(false) && r == Clz(w)
    ensures 0 <= idx - r && Bit(ws, idx - r) && forall i: nat :: idx - r < i <= idx ==> !Bit(ws, i)
  {
    var q, m := idx / BITS, idx % BITS;
    assert r <= m;
    BitAt(ws, q, m - r);
    forall i: nat | idx - r < i <= idx ensures !Bit(ws, i) {
      BitAt(ws, q, i - q * BITS);
      assert !w[i - q * BITS + (BITS - 1 - m)];
    }
  }

  lemma NoneInWord(ws: seq<Word>, idx: nat, w: Word)
    requires idx < BITS * |ws| && w == Shl(ws[idx / BITS], BITS - 1 - idx % BITS) && w == Fill(false)
    ensures forall i: nat :: idx / BITS * BITS <= i <= idx ==> !Bit(ws, i)
  {
    var q, m := idx / BITS, idx % BITS;
    forall i: nat | q * BITS <= i <= idx ensures !Bit(ws, i) {
      BitAt(ws, q, i - q * BITS);
      assert !w[i - q * BITS + (BITS - 1 - m)];
    }
  }
}
