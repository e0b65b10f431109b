/** The other way round: the bytes a message was read from are the bytes that are written for it. */
module MsgBack {
  import opened Options
  import opened Arithmetic
  import opened MsgCodec

  // ---------- numbers ----------

  lemma {:induction false} NaturalFits(s: seq<Byte>)
    ensures Natural(s) < Pow256(|s|)
    decreases |s|
  {
    if s != [] { NaturalFits(s[1..]); }
  }

  /** A number and its two's complement have the same bytes. */
  lemma {:induction false} EncodeNatural(s: seq<Byte>, v: int)
    requires v == Natural(s) || v == Natural(s) - Pow256(|s|)
    ensures Encode(v, |s|) == s
    decreases |s|
  {
    if s != [] {
      var n := if v == Natural(s) then Natural(s[1..]) else Natural(s[1..]) - Pow256(|s| - 1);
      DivUnique(v, 256, n, s[0]);
      EncodeNatural(s[1..], n);
      assert s == [s[0]] + s[1..];
    }
  }

  lemma EncodeBack(s: seq<Byte>, signed: bool)
    ensures InRange(Decode(s, signed), |s|, signed) && Encode(Decode(s, signed), |s|) == s
  {
    NaturalFits(s);
    EncodeNatural(s, Decode(s, signed));
  }

  // ---------- formats ----------

  /** No name comes twice, and the length of a row of bytes is a number that comes before it. */
  ghost predicate WellFormed(fs: seq<Field>, known: set<string>)
  {
    fs == [] ||
    (&& fs[0].name !in known
     && (fs[0].Counted? ==> fs[0].unit > 0 && fs[0].src in known)
     && WellFormed(fs[1..], known + {fs[0].name}))
  }

  /** What has been read is not read over. */
  lemma {:induction false} Kept(fs: seq<Field>, known: set<string>, d: seq<Byte>, attrs: Attrs, at: nat, n: string)
    requires WellFormed(fs, known) && n in known && n in attrs && Extract(fs, d, attrs, at).Some?
    ensures var a := Extract(fs, d, attrs, at).value.attrs; n in a && a[n] == attrs[n]
  {
    if fs != [] {
      var u := Unpack(fs[0], attrs, d, at).value;
      Kept(fs[1..], known + {fs[0].name}, d, attrs[fs[0].name := u.v], u.next, n);
    }
  }

  /** What one field has taken. */
  function Taken(f: Field, attrs: Attrs): nat
  {
    match f
    case Fixed(_, size, _) => size
    case Counted(_, unit, src) => match Width(attrs, src) case Some(w) => unit * w case None => 0
  }

  /** All rows of bytes but the last are counted in bytes, or empty. */
  ghost predicate LastCounts(fs: seq<Field>, m: Attrs)
  {
    forall i :: 0 <= i < |fs| - 1 ==> ByBytes(fs[i], m)
  }

  lemma FitsAll(s: seq<Byte>)
    ensures Fit(s, |s|) == s
  {}

  lemma PackBack(f: Field, d: seq<Byte>, attrs: Attrs, at: nat, m: Attrs)
    requires Unpack(f, attrs, d, at).Some? && f.name in m && m[f.name] == Unpack(f, attrs, d, at).value.v
    requires f.Counted? ==> f.unit > 0 && f.src in attrs && f.src in m && m[f.src] == attrs[f.src]
    ensures at + Taken(f, m) <= |d| && Pack(f, m) == Some(d[at..at + Taken(f, m)])
    ensures ByBytes(f, m) ==> Unpack(f, attrs, d, at).value.next == at + Taken(f, m)
    ensures Unpack(f, attrs, d, at).value.next <= at + Taken(f, m)
  {
    match f
    case Fixed(_, size, signed) => EncodeBack(d[at..at + size], signed);
    case Counted(_, unit, src) =>
      var w := Width(attrs, src).value;
      assert Width(m, src) == Some(w) && Taken(f, m) == unit * w;
      FitsAll(d[at..at + unit * w]);
      Multiple(unit, w);
      if ByBytes(f, m) { assert unit * w == w; }
  }

  lemma OneGenerated(fs: seq<Field>, m: Attrs, s: seq<Byte>)
    requires fs != [] && fs[1..] == [] && Pack(fs[0], m) == Some(s)
    ensures Generate(fs, m) == Some(s)
  {
    assert s + [] == s;
  }

  lemma TwoGenerated(fs: seq<Field>, m: Attrs, d: seq<Byte>, a: nat, b: nat, c: nat)
    requires fs != [] && a <= b <= c <= |d|
    requires Pack(fs[0], m) == Some(d[a..b]) && Generate(fs[1..], m) == Some(d[b..c])
    ensures Generate(fs, m) == Some(d[a..c])
  {
    assert d[a..b] + d[b..c] == d[a..c];
  }

  /** The attributes `m` are written as the `n` bytes from `at` on, which reading ends behind. */
  ghost predicate WritesTo(fs: seq<Field>, m: Attrs, d: seq<Byte>, at: nat, n: nat, end: nat)
  {
    at + n <= |d| && Generate(fs, m) == Some(d[at..at + n]) && (AllByBytes(fs, m) ==> end == at + n)
  }

  lemma {:induction false} WritesBackFrom(fs: seq<Field>, known: set<string>, d: seq<Byte>, attrs: Attrs, at: nat)
    returns (n: nat)
    requires WellFormed(fs, known) && (forall x :: x in known ==> x in attrs) && at <= |d|
    requires Extract(fs, d, attrs, at).Some? && LastCounts(fs, Extract(fs, d, attrs, at).value.attrs)
    ensures var e := Extract(fs, d, attrs, at).value; WritesTo(fs, e.attrs, d, at, n, e.offset)
    decreases |fs|
  {
    n := 0;
    if fs == [] {
      assert d[at..at + 0] == [];
    } else {
      var f, e := fs[0], Extract(fs, d, attrs, at).value;
      var u := Unpack(f, attrs, d, at).value;
      FieldBack(fs, known, d, attrs, at);
      if fs[1..] == [] {
        n := Taken(f, e.attrs);
        OneGenerated(fs, e.attrs, d[at..at + n]);
        if AllByBytes(fs, e.attrs) { assert ByBytes(fs[0], e.attrs); }
      } else {
        LastOfRest(fs, e.attrs);
        var rest := WritesBackFrom(fs[1..], known + {f.name}, d, attrs[f.name := u.v], u.next);
        n := Taken(f, e.attrs) + rest;
        TwoGenerated(fs, e.attrs, d, at, u.next, at + n);
        if AllByBytes(fs, e.attrs) { TailByBytes(fs, e.attrs); }
      }
    }
  }

  lemma LastOfRest(fs: seq<Field>, m: Attrs)
    requires |fs| > 1 && LastCounts(fs, m)
    ensures ByBytes(fs[0], m) && LastCounts(fs[1..], m)
  {
    forall i | 0 <= i < |fs[1..]| - 1 ensures ByBytes(fs[1..][i], m) { assert ByBytes(fs[i + 1], m); }
  }

  /** The first field is written as the bytes it was read from. */
  lemma FieldBack(fs: seq<Field>, known: set<string>, d: seq<Byte>, attrs: Attrs, at: nat)
    requires fs != [] && WellFormed(fs, known) && forall x :: x in known ==> x in attrs
    requires Extract(fs, d, attrs, at).Some?
    ensures var m, u := Extract(fs, d, attrs, at).value.attrs, Unpack(fs[0], attrs, d, at).value;
      && at + Taken(fs[0], m) <= |d| && Pack(fs[0], m) == Some(d[at..at + Taken(fs[0], m)])
      && u.next <= at + Taken(fs[0], m) && (ByBytes(fs[0], m) ==> u.next == at + Taken(fs[0], m))
  {
    var f, m := fs[0], Extract(fs, d, attrs, at).value.attrs;
    var u := Unpack(f, attrs, d, at).value;
    Kept(fs[1..], known + {f.name}, d, attrs[f.name := u.v], u.next, f.name);
    if f.Counted? { Kept(fs[1..], known + {f.name}, d, attrs[f.name := u.v], u.next, f.src); }
    PackBack(f, d, attrs, at, m);
  }

  /** Any bytes that can be read as a message are written again as they were, as far as the message goes,
      if only its last row is counted in larger units; if none is, that is as far as the offset says. */
  lemma WritesBack(fs: seq<Field>, d: seq<Byte>) returns (n: nat)
    requires WellFormed(fs, {}) && Extract(fs, d, map[], 0).Some?
    requires LastCounts(fs, Extract(fs, d, map[], 0).value.attrs)
    ensures n <= |d| && Generate(fs, Extract(fs, d, map[], 0).value.attrs) == Some(d[..n])
    ensures AllByBytes(fs, Extract(fs, d, map[], 0).value.attrs) ==> Extract(fs, d, map[], 0).value.offset == n
  {
    n := WritesBackFrom(fs, {}, d, map[], 0);
  }
}
