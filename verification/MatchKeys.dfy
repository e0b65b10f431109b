/** Match keys of parse states: fields of any width packed into whole bytes, written in hexadecimal. */
module MatchKeys {
  import opened Arithmetic
  import opened Bits

  // ---------- hexadecimal ----------

  type Digit = d: nat | d < 16

  /** The lowest `n` hexadecimal digits. */
  function HexDigits(v: nat, n: nat): (ds: seq<Digit>)
    ensures |ds| == n
  {
    if n == 0 then [] else HexDigits(v / 16, n - 1) + [v % 16]
  }

  function HexLength(v: nat): (n: nat)
    ensures n > 0
  {
    if v < 16 then 1 else 1 + HexLength(v / 16)
  }

  function Number(ds: seq<Digit>): nat
  {
    if ds == [] then 0 else Number(ds[..|ds| - 1]) * 16 + ds[|ds| - 1]
  }

  /** At least `least` digits, and as many as it takes. */
  function Format(v: nat, least: nat): seq<Digit>
  {
    HexDigits(v, if least > HexLength(v) then least else HexLength(v))
  }

  lemma {:induction false} Fits(v: nat, n: nat)
    requires n > 0 && v < Pow2(4 * n)
    ensures HexLength(v) <= n && Number(HexDigits(v, n)) == v
  {
    assert Pow2(4 * n) == 16 * Pow2(4 * (n - 1)) by { Times16(4 * (n - 1)); }
    if n == 1 {
      assert Pow2(0) == 1;
      assert HexDigits(v, 1) == [v];
    } else {
      Fits(v / 16, n - 1);
      var ds := HexDigits(v, n);
      assert ds[..n - 1] == HexDigits(v / 16, n - 1);
    }
  }

  lemma Times16(n: nat)
    ensures Pow2(n + 4) == 16 * Pow2(n)
  {
    assert Pow2(n + 4) == 2 * Pow2(n + 3) && Pow2(n + 3) == 2 * Pow2(n + 2) && Pow2(n + 2) == 2 * Pow2(n + 1);
  }

  // ---------- packing ----------

  function BytesOf(width: nat): nat
  {
    (width + 7) / 8
  }

  /** `get_match_value_width` */
  function MatchWidth(widths: seq<nat>): nat
  {
    if widths == [] then 0 else MatchWidth(widths[..|widths| - 1]) + BytesOf(widths[|widths| - 1])
  }

  function Sum(widths: seq<nat>): nat
  {
    if widths == [] then 0 else Sum(widths[..|widths| - 1]) + widths[|widths| - 1]
  }

  /** The last width takes the lowest bits of the value. */
  function Packed(widths: seq<nat>, value: int): seq<Digit>
  {
    if widths == [] then []
    else
      var last := |widths| - 1;
      Packed(widths[..last], value / Pow2(widths[last]))
        + Format(value % Pow2(widths[last]), 2 * BytesOf(widths[last]))
  }

  /** `build_match_value`, but for the "0x" in front. */
  method BuildMatchValue(widths: seq<nat>, value: int) returns (res: seq<Digit>)
    ensures res == Packed(widths, value)
  {
    res := [];
    var v := value;
    var i := |widths|;
    assert widths[..i] == widths;
    while i > 0
      invariant i <= |widths| && Packed(widths, value) == Packed(widths[..i], v) + res
    {
      i := i - 1;
      var width := widths[i];
      var val := v % Pow2(width);
      PackedLast(widths, i, v, res);
      res := Format(val, 2 * BytesOf(width)) + res;
      v := v / Pow2(width);
    }
    assert widths[..0] == [];
  }

  lemma PackedLast(widths: seq<nat>, i: nat, v: int, res: seq<Digit>)
    requires i < |widths|
    ensures var w := widths[i];
      Packed(widths[..i + 1], v) + res
        == Packed(widths[..i], v / Pow2(w)) + (Format(v % Pow2(w), 2 * BytesOf(w)) + res)
  {
    assert widths[..i + 1][..i] == widths[..i];
  }

  /** Two digits for each byte counted, if and only if no width is zero. */
  lemma {:induction false} PackedLength(widths: seq<nat>, value: int)
    ensures |Packed(widths, value)| >= 2 * MatchWidth(widths)
    ensures |Packed(widths, value)| == 2 * MatchWidth(widths) <==> forall i :: 0 <= i < |widths| ==> widths[i] > 0
  {
    if widths != [] {
      var last := |widths| - 1;
      var w := widths[last];
      PackedLength(widths[..last], value / Pow2(w));
      FormatLength(value, w);
      assert forall i :: 0 <= i < last ==> widths[..last][i] == widths[i];
    }
  }

  /** A field of no width has one digit all the same. */
  lemma FormatLength(value: int, w: nat)
    ensures |Format(value % Pow2(w), 2 * BytesOf(w))| == if w > 0 then 2 * BytesOf(w) else 1
    ensures w == 0 ==> BytesOf(w) == 0
  {
    if w > 0 { FieldFits(value, w); } else { assert value % Pow2(0) == 0; }
  }

  /** A field of a positive width takes just the digits of its bytes. */
  lemma FieldFits(value: int, w: nat)
    requires w > 0
    ensures (var v := value % Pow2(w); var n := 2 * BytesOf(w);
      v < Pow2(4 * n) && Format(v, n) == HexDigits(v, n) && Number(Format(v, n)) == v)
  {
    var v, n := value % Pow2(w), 2 * BytesOf(w);
    Pow2Grows(w, 4 * n);
    Fits(v, n);
  }

  // ---------- unpacking ----------

  ghost predicate Positive(widths: seq<nat>)
  {
    forall i :: 0 <= i < |widths| ==> widths[i] > 0
  }

  /** The bits that the whole bytes of the fields hold. */
  function Unpacked(widths: seq<nat>, ds: seq<Digit>): nat
    requires |ds| == 2 * MatchWidth(widths)
  {
    if widths == [] then 0
    else
      var last := |widths| - 1;
      var w := widths[last];
      var k := |ds| - 2 * BytesOf(w);
      Unpacked(widths[..last], ds[..k]) * Pow2(w) + Number(ds[k..])
  }

  lemma ModSplits(v: int, p: nat, q: nat)
    requires p > 0 && q > 0
    ensures p * q > 0 && v % (p * q) == v / q % p * q + v % q
  {
    var a, r := v / q, v % q;
    var b, c := a / p, a % p;
    assert v == q * a + r && a == p * b + c;
    assert q * (p * b + c) == (p * q) * b + q * c by { Regroup(p, q, b, c); }
    Small(p, q, c, r);
    DivUnique(v, p * q, b, c * q + r);
  }

  lemma Regroup(p: nat, q: nat, b: int, c: nat)
    ensures q * (p * b + c) == (p * q) * b + q * c
  {}

  lemma Small(p: nat, q: nat, c: nat, r: nat)
    requires c < p && r < q
    ensures 0 <= c * q + r < p * q
  {
    MulMono(q, c + 1, p);
  }

  /** Packing loses nothing but the bits beyond the widths. */
  lemma {:induction false} UnpacksBack(widths: seq<nat>, value: int)
    requires Positive(widths)
    ensures |Packed(widths, value)| == 2 * MatchWidth(widths)
    ensures Unpacked(widths, Packed(widths, value)) == value % Pow2(Sum(widths))
  {
    PackedLength(widths, value);
    if widths == [] {
      assert Pow2(0) == 1;
    } else {
      var last := |widths| - 1;
      var w, rest := widths[last], widths[..last];
      UnpacksBack(rest, value / Pow2(w));
      FieldFits(value, w);
      var p, q := Pow2(Sum(rest)), Pow2(w);
      var a, b := Packed(rest, value / q), Format(value % q, 2 * BytesOf(w));
      UnpackStep(widths, a, b);
      SumStep(widths);
      ModSplits(value, p, q);
    }
  }

  lemma SumStep(widths: seq<nat>)
    requires widths != []
    ensures Pow2(Sum(widths)) == Pow2(Sum(widths[..|widths| - 1])) * Pow2(widths[|widths| - 1])
  {
    Pow2Adds(Sum(widths[..|widths| - 1]), widths[|widths| - 1]);
  }

  lemma UnpackStep(widths: seq<nat>, a: seq<Digit>, b: seq<Digit>)
    requires widths != []
    requires |a| == 2 * MatchWidth(widths[..|widths| - 1]) && |b| == 2 * BytesOf(widths[|widths| - 1])
    ensures Unpacked(widths, a + b)
         == Unpacked(widths[..|widths| - 1], a) * Pow2(widths[|widths| - 1]) + Number(b)
  {
    assert (a + b)[..|a|] == a && (a + b)[|a|..] == b;
  }

  // ---------- masks ----------

  /** Bitwise and. */
  function And(a: nat, b: nat): (r: nat)
    ensures r <= a
    decreases a
  {
    if a == 0 || b == 0 then 0 else 2 * And(a / 2, b / 2) + Both(a, b)
  }

  /** The lowest bit of the and. */
  function Both(a: nat, b: nat): (r: nat)
    ensures r <= a % 2 && r < 2
  {
    if a % 2 == 1 && b % 2 == 1 then 1 else 0
  }

  lemma AndStep(a: nat, b: nat)
    ensures And(a, b) / 2 == And(a / 2, b / 2) && And(a, b) % 2 == Both(a, b)
  {}

  /** `a` without its lowest `n` bits. */
  function Drop(a: nat, n: nat): nat
  {
    if n == 0 then a else Drop(a / 2, n - 1)
  }

  lemma {:induction false} DropIsDiv(a: nat, n: nat)
    ensures Drop(a, n) == a / Pow2(n)
  {
    if n > 0 {
      DropIsDiv(a / 2, n - 1);
      HalfDiv(a, Pow2(n - 1));
    }
  }

  lemma {:induction false} AndDrop(a: nat, b: nat, n: nat)
    ensures Drop(And(a, b), n) == And(Drop(a, n), Drop(b, n))
  {
    if n > 0 {
      AndStep(a, b);
      AndDrop(a / 2, b / 2, n - 1);
    }
  }

  lemma HalfDiv(a: nat, p: nat)
    requires p > 0
    ensures a / (2 * p) == a / 2 / p
  {
    Halves(a, p);
  }

  lemma Halves(a: nat, p: nat)
    requires p > 0
    ensures a / (2 * p) == a / 2 / p && a % (2 * p) == 2 * (a / 2 % p) + a % 2
  {
    var q, r := a / 2 / p, a / 2 % p;
    assert a / 2 == p * q + r && a == 2 * (p * q + r) + a % 2;
    Regroup(p, 2, q, r);
    DivUnique(a, 2 * p, q, 2 * r + a % 2);
  }

  /** The lowest `n` bits of `a`. */
  function Keep(a: nat, n: nat): nat
  {
    if n == 0 then 0 else 2 * Keep(a / 2, n - 1) + a % 2
  }

  lemma {:induction false} KeepIsMod(a: nat, n: nat)
    ensures Keep(a, n) == a % Pow2(n)
  {
    if n > 0 {
      KeepIsMod(a / 2, n - 1);
      Halves(a, Pow2(n - 1));
    }
  }

  lemma AndJoin(x: nat, y: nat, r: nat, t: nat)
    requires r < 2 && t < 2
    ensures And(2 * x + r, 2 * y + t) == 2 * And(x, y) + Both(r, t)
  {
    var a, b := 2 * x + r, 2 * y + t;
    assert a / 2 == x && b / 2 == y && a % 2 == r && b % 2 == t;
    AndStep(a, b);
  }

  lemma {:induction false} AndKeep(a: nat, b: nat, n: nat)
    ensures Keep(And(a, b), n) == And(Keep(a, n), Keep(b, n))
  {
    if n > 0 {
      var x, y := Keep(a / 2, n - 1), Keep(b / 2, n - 1);
      assert Keep(And(a, b), n) == 2 * And(x, y) + Both(a, b) by {
        AndStep(a, b);
        AndKeep(a / 2, b / 2, n - 1);
      }
      AndJoin(x, y, a % 2, b % 2);
      KeepStep(a, n);
      KeepStep(b, n);
    }
  }

  lemma KeepStep(a: nat, n: nat)
    requires n > 0
    ensures Keep(a, n) == 2 * Keep(a / 2, n - 1) + a % 2
  {
  }

  function AndAll(xs: seq<Digit>, ys: seq<Digit>): seq<nat>
    requires |xs| == |ys|
  {
    seq(|xs|, i requires 0 <= i < |xs| => And(xs[i], ys[i]))
  }

  lemma Drop4(a: nat)
    ensures Drop(a, 4) == a / 16
  {
    assert Drop(a, 4) == Drop(a / 2, 3) == Drop(a / 2 / 2, 2) == Drop(a / 2 / 2 / 2, 1);
    assert Drop(a / 2 / 2 / 2, 1) == a / 2 / 2 / 2 / 2;
    assert a / 2 / 2 == a / 4 && a / 4 / 2 == a / 8 && a / 8 / 2 == a / 16;
  }

  lemma Keep4(a: nat)
    ensures Keep(a, 4) == a % 16
  {
    KeepIsMod(a, 4);
    assert Pow2(1) == 2 && Pow2(2) == 4 && Pow2(3) == 8 && Pow2(4) == 16;
  }

  lemma {:induction false} DigitsAnd(a: nat, b: nat, n: nat)
    ensures HexDigits(And(a, b), n) == AndAll(HexDigits(a, n), HexDigits(b, n))
    decreases n
  {
    if n > 0 {
      AndDrop(a, b, 4);
      Drop4(a);
      Drop4(b);
      Drop4(And(a, b));
      AndKeep(a, b, 4);
      Keep4(a);
      Keep4(b);
      Keep4(And(a, b));
      DigitsAnd(a / 16, b / 16, n - 1);
    }
  }

  lemma AndAppend(a: seq<Digit>, b: seq<Digit>, c: seq<Digit>, d: seq<Digit>)
    requires |a| == |c| && |b| == |d|
    ensures AndAll(a + b, c + d) == AndAll(a, c) + AndAll(b, d)
  {}

  /** Packing goes through bitwise and, digit by digit. */
  lemma {:induction false} PackedAnd(widths: seq<nat>, a: nat, b: nat)
    requires Positive(widths)
    ensures |Packed(widths, a)| == |Packed(widths, b)|
    ensures Packed(widths, And(a, b)) == AndAll(Packed(widths, a), Packed(widths, b))
  {
    if widths != [] {
      var last := |widths| - 1;
      var w, rest := widths[last], widths[..last];
      PackedStep(widths, a);
      PackedStep(widths, b);
      PackedStep(widths, And(a, b));
      AndDrop(a, b, w);
      FieldAnd(a, b, w);
      PackedAnd(rest, Drop(a, w), Drop(b, w));
      AndAppend(Packed(rest, Drop(a, w)), Field(a, w), Packed(rest, Drop(b, w)), Field(b, w));
    }
  }

  function Field(v: int, w: nat): seq<Digit>
  {
    Format(v % Pow2(w), 2 * BytesOf(w))
  }

  lemma PackedStep(widths: seq<nat>, v: nat)
    requires widths != []
    ensures (var last := |widths| - 1;
      Packed(widths, v) == Packed(widths[..last], Drop(v, widths[last])) + Field(v, widths[last]))
  {
    DropIsDiv(v, widths[|widths| - 1]);
  }

  lemma FieldAnd(a: nat, b: nat, w: nat)
    requires w > 0
    ensures |Field(a, w)| == |Field(b, w)| && Field(And(a, b), w) == AndAll(Field(a, w), Field(b, w))
  {
    FieldIs(a, w);
    FieldIs(b, w);
    FieldIs(And(a, b), w);
    AndKeep(a, b, w);
    DigitsAnd(Keep(a, w), Keep(b, w), 2 * BytesOf(w));
  }

  lemma FieldIs(v: nat, w: nat)
    requires w > 0
    ensures Field(v, w) == HexDigits(Keep(v, w), 2 * BytesOf(w))
  {
    KeepIsMod(v, w);
    FieldFits(v, w);
  }

  /** A key matches a value under a mask on the packed digits if and only if it does on the bits. */
  lemma {:induction false} MaskedMatchIff(widths: seq<nat>, key: nat, value: nat, mask: nat)
    requires Positive(widths)
    ensures |Packed(widths, key)| == |Packed(widths, mask)| == |Packed(widths, value)|
    ensures AndAll(Packed(widths, key), Packed(widths, mask)) == AndAll(Packed(widths, value), Packed(widths, mask))
      <==> And(key, mask) % Pow2(Sum(widths)) == And(value, mask) % Pow2(Sum(widths))
  {
    PackedAnd(widths, key, mask);
    PackedAnd(widths, value, mask);
    UnpacksBack(widths, And(key, mask));
    UnpacksBack(widths, And(value, mask));
    if And(key, mask) % Pow2(Sum(widths)) == And(value, mask) % Pow2(Sum(widths)) {
      PackedOfMod(widths, And(key, mask), And(value, mask));
    }
  }

  /** What is packed depends on the bits within the widths alone. */
  lemma {:induction false} PackedOfMod(widths: seq<nat>, a: int, b: int)
    requires a % Pow2(Sum(widths)) == b % Pow2(Sum(widths))
    ensures Packed(widths, a) == Packed(widths, b)
  {
    if widths != [] {
      var last := |widths| - 1;
      var w, rest := widths[last], widths[..last];
      var p, q := Pow2(Sum(rest)), Pow2(w);
      SumStep(widths);
      ModSplits(a, p, q);
      ModSplits(b, p, q);
      SamePair(a / q % p, a % q, b / q % p, b % q, q);
      PackedOfMod(rest, a / q, b / q);
    }
  }

  lemma SamePair(x: nat, r: nat, y: nat, s: nat, q: nat)
    requires r < q && s < q && x * q + r == y * q + s
    ensures x == y && r == s
  {
    if x < y { MulMono(q, x + 1, y); }
    if y < x { MulMono(q, y + 1, x); }
  }
}
