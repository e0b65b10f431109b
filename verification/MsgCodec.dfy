/** The messages of the debugger: each class lists the fields it adds to those of its parent, and both
    directions of the codec are driven by the lists. */
module MsgCodec {
  import opened Options
  import opened Arithmetic

  type Byte = b: int | 0 <= b < 256

  datatype Val = Int(n: int) | Bytes(s: seq<Byte>)

  /** A number of a fixed size, or a row of bytes of `unit` times the number that the field `src` holds. */
  datatype Field = Fixed(name: string, size: nat, signed: bool) | Counted(name: string, unit: nat, src: string)

  type Attrs = map<string, Val>

  // ---------- numbers, the least byte first ----------

  function Pow256(n: nat): (p: nat)
    ensures p > 0
  {
    if n == 0 then 1 else 256 * Pow256(n - 1)
  }

  predicate InRange(v: int, size: nat, signed: bool)
  {
    if signed then 0 - Pow256(size) <= 2 * v < Pow256(size) else 0 <= v < Pow256(size)
  }

  function Encode(v: int, size: nat): (s: seq<Byte>)
    ensures |s| == size
    decreases size
  {
    if size == 0 then [] else [v % 256] + Encode(v / 256, size - 1)
  }

  function Natural(s: seq<Byte>): nat
  {
    if s == [] then 0 else s[0] + 256 * Natural(s[1..])
  }

  function Decode(s: seq<Byte>, signed: bool): int
  {
    var v := Natural(s);
    if signed && 2 * v >= Pow256(|s|) then v - Pow256(|s|) else v
  }

  lemma {:induction false} NaturalBack(v: int, size: nat)
    ensures Natural(Encode(v, size)) == v % Pow256(size)
    decreases size
  {
    if size > 0 {
      NaturalBack(v / 256, size - 1);
      ModParts(v, Pow256(size - 1));
    }
  }

  lemma ModParts(v: int, p: nat)
    requires p > 0
    ensures v % (256 * p) == v % 256 + 256 * (v / 256 % p)
  {
    var q, r := v / 256 / p, v / 256 % p;
    assert v / 256 == p * q + r;
    assert v == 256 * (p * q + r) + v % 256;
    assert 256 * (p * q + r) == (256 * p) * q + 256 * r;
    DivUnique(v, 256 * p, q, 256 * r + v % 256);
  }

  lemma IntBack(v: int, size: nat, signed: bool)
    requires InRange(v, size, signed)
    ensures Decode(Encode(v, size), signed) == v
  {
    NaturalBack(v, size);
    var p := Pow256(size);
    if v < 0 { DivUnique(v, p, -1, v + p); } else { DivUnique(v, p, 0, v); }
  }

  // ---------- single fields ----------

  /** `getattr` of the field that holds the length. */
  function Width(attrs: Attrs, src: string): Option<nat>
  {
    if src in attrs && attrs[src].Int? && attrs[src].n >= 0 then Some(attrs[src].n) else None
  }

  /** Exactly `n` bytes: a longer row is cut, a shorter one is filled with zeros. */
  function Fit(s: seq<Byte>, n: nat): (r: seq<Byte>)
    ensures |r| == n
  {
    if |s| >= n then s[..n] else s + seq(n - |s|, i => 0)
  }

  function Pack(f: Field, attrs: Attrs): Option<seq<Byte>>
  {
    if f.name !in attrs then None
    else
      match f
      case Fixed(name, size, signed) =>
        if attrs[name].Int? && InRange(attrs[name].n, size, signed) then Some(Encode(attrs[name].n, size)) else None
      case Counted(name, unit, src) =>
        if attrs[name].Bytes? && Width(attrs, src).Some? then Some(Fit(attrs[name].s, unit * Width(attrs, src).value))
        else None
  }

  datatype Unpacked = Unpacked(v: Val, next: nat)

  /** The field at `offset`, and where the next one is looked for: behind a row of bytes, the offset
      moves on by the number of units. */
  function Unpack(f: Field, attrs: Attrs, msg: seq<Byte>, offset: nat): Option<Unpacked>
  {
    match f
    case Fixed(_, size, signed) =>
      if offset + size > |msg| then None
      else Some(Unpacked(Int(Decode(msg[offset..offset + size], signed)), offset + size))
    case Counted(_, unit, src) =>
      match Width(attrs, src)
      case None => None
      case Some(width) =>
        if offset + unit * width > |msg| then None
        else Some(Unpacked(Bytes(msg[offset..offset + unit * width]), offset + width))
  }

  // ---------- messages ----------

  function Generate(fs: seq<Field>, attrs: Attrs): Option<seq<Byte>>
  {
    if fs == [] then Some([])
    else
      match (Pack(fs[0], attrs), Generate(fs[1..], attrs))
      case (Some(s), Some(rest)) => Some(s + rest)
      case _ => None
  }

  datatype Extracted = Extracted(attrs: Attrs, offset: nat)

  function Extract(fs: seq<Field>, msg: seq<Byte>, attrs: Attrs, offset: nat): Option<Extracted>
  {
    if fs == [] then Some(Extracted(attrs, offset))
    else
      match Unpack(fs[0], attrs, msg, offset)
      case None => None
      case Some(u) => Extract(fs[1..], msg, attrs[fs[0].name := u.v], u.next)
  }

  function Names(fs: seq<Field>): set<string>
  {
    set f | f in fs :: f.name
  }

  /** The values of `m` suit the fields: no name comes twice, numbers are in range, and a row of bytes
      comes after its length field and is as long as that says. */
  ghost predicate Suits(fs: seq<Field>, m: Attrs, known: set<string>)
  {
    fs == [] ||
    (&& fs[0].name !in known && fs[0].name in m
     && FieldSuits(fs[0], m, known)
     && Suits(fs[1..], m, known + {fs[0].name}))
  }

  ghost predicate FieldSuits(f: Field, m: Attrs, known: set<string>)
    requires f.name in m
  {
    match f
    case Fixed(name, size, signed) => m[name].Int? && InRange(m[name].n, size, signed)
    case Counted(name, unit, src) =>
      && unit > 0 && src in known && Width(m, src).Some?
      && m[name].Bytes? && |m[name].s| == unit * Width(m, src).value
  }

  /** `a` and `m` have the same values under the names. */
  ghost predicate Agree(a: Attrs, m: Attrs, names: set<string>)
  {
    forall n :: n in names ==> n in a && n in m && a[n] == m[n]
  }

  /** A row of bytes is as many bytes long as its length field says. */
  ghost predicate ByBytes(f: Field, m: Attrs)
  {
    f.Counted? ==> f.unit == 1 || Width(m, f.src) == Some(0)
  }

  ghost predicate AllByBytes(fs: seq<Field>, m: Attrs)
  {
    forall i :: 0 <= i < |fs| ==> ByBytes(fs[i], m)
  }

  /** Reading the bytes of a message restores its fields and ends just behind them. */
  ghost predicate RoundTrips(fs: seq<Field>, m: Attrs, post: seq<Byte>)
  {
    var s := Generate(fs, m);
    s.Some? &&
    var r := Extract(fs, s.value + post, map[], 0);
    r.Some? && Agree(r.value.attrs, m, Names(fs)) && r.value.offset == |s.value|
  }

  // ---------- the round trip ----------

  lemma {:induction false} Generates(fs: seq<Field>, m: Attrs, known: set<string>)
    requires Suits(fs, m, known)
    ensures Generate(fs, m).Some?
  {
    if fs != [] { Generates(fs[1..], m, known + {fs[0].name}); }
  }

  /** One field read back, from attributes that already hold its length. */
  lemma UnpackBack(f: Field, m: Attrs, known: set<string>, attrs: Attrs, pre: seq<Byte>, post: seq<Byte>)
    requires f.name in m && FieldSuits(f, m, known) && Agree(attrs, m, known)
    ensures Pack(f, m).Some?
    ensures (var s := Pack(f, m).value; var u := Unpack(f, attrs, pre + s + post, |pre|);
      u.Some? && u.value.v == m[f.name] && (ByBytes(f, m) ==> u.value.next == |pre| + |s|))
  {
    var s := Pack(f, m).value;
    assert (pre + s + post)[|pre|..|pre| + |s|] == s;
    match f
    case Fixed(name, size, signed) => IntBack(m[name].n, size, signed);
    case Counted(name, unit, src) =>
      var w := Width(m, src).value;
      assert Width(attrs, src) == Some(w);
      if ByBytes(f, m) { assert unit * w == w; }
      assert m[name].s[..|m[name].s|] == m[name].s;
  }

  lemma {:induction false} ReadsBack(fs: seq<Field>, m: Attrs, known: set<string>, attrs: Attrs, pre: seq<Byte>,
                                     post: seq<Byte>)
    requires Suits(fs, m, known) && Agree(attrs, m, known) && AllByBytes(fs, m)
    ensures Generate(fs, m).Some?
    ensures (var s := Generate(fs, m).value; var r := Extract(fs, pre + s + post, attrs, |pre|);
      r.Some? && r.value.offset == |pre| + |s| && Agree(r.value.attrs, m, known + Names(fs)))
  {
    if fs == [] {
      assert Names(fs) == {};
      assert known + {} == known;
    } else {
      var f, rest := fs[0], fs[1..];
      Generates(rest, m, known + {f.name});
      assert ByBytes(fs[0], m);
      var s, t := Pack(f, m).value, Generate(rest, m).value;
      UnpackBack(f, m, known, attrs, pre, t + post);
      TailByBytes(fs, m);
      ReadsBack(rest, m, known + {f.name}, attrs[f.name := m[f.name]], pre + s, post);
      Regroup(pre, s, t, post);
      FirstThenRest(fs, m, known, attrs, pre + s + (t + post), s, t, |pre|);
    }
  }

  lemma FirstThenRest(fs: seq<Field>, m: Attrs, known: set<string>, attrs: Attrs, all: seq<Byte>, s: seq<Byte>,
                      t: seq<Byte>, at: nat)
    requires fs != [] && fs[0].name in m && Pack(fs[0], m) == Some(s) && Generate(fs[1..], m) == Some(t)
    requires Unpack(fs[0], attrs, all, at) == Some(Unpacked(m[fs[0].name], at + |s|))
    requires var r := Extract(fs[1..], all, attrs[fs[0].name := m[fs[0].name]], at + |s|);
      r.Some? && r.value.offset == at + |s| + |t| && Agree(r.value.attrs, m, known + {fs[0].name} + Names(fs[1..]))
    ensures Generate(fs, m) == Some(s + t)
    ensures var r := Extract(fs, all, attrs, at);
      r.Some? && r.value.offset == at + |s + t| && Agree(r.value.attrs, m, known + Names(fs))
  {
    AgreeAll(fs, Extract(fs, all, attrs, at).value.attrs, m, known);
  }

  lemma AgreeAll(fs: seq<Field>, a: Attrs, m: Attrs, known: set<string>)
    requires fs != [] && Agree(a, m, known + {fs[0].name} + Names(fs[1..]))
    ensures Agree(a, m, known + Names(fs))
  {
    NamesSplit(fs);
  }

  lemma Regroup(pre: seq<Byte>, s: seq<Byte>, t: seq<Byte>, post: seq<Byte>)
    ensures pre + (s + t) + post == pre + s + (t + post)
    ensures pre + s + t + post == pre + s + (t + post)
  {}

  lemma TailByBytes(fs: seq<Field>, m: Attrs)
    requires fs != [] && AllByBytes(fs, m)
    ensures AllByBytes(fs[1..], m)
  {
    forall i | 0 <= i < |fs| - 1 ensures ByBytes(fs[1..][i], m) {
      assert ByBytes(fs[i + 1], m);
    }
  }

  lemma NamesSplit(fs: seq<Field>)
    requires fs != []
    ensures Names(fs) == {fs[0].name} + Names(fs[1..])
  {
    assert fs == [fs[0]] + fs[1..];
    forall n ensures n in Names(fs) <==> n in {fs[0].name} + Names(fs[1..]) {}
  }

  lemma {:induction false} SuitsLast(fs: seq<Field>, f: Field, m: Attrs, known: set<string>)
    requires Suits(fs + [f], m, known)
    ensures Suits(fs, m, known) && f.name in m && FieldSuits(f, m, known + Names(fs))
  {
    if fs == [] {
      assert [] + [f] == [f];
      assert Names(fs) == {} && known + {} == known;
    } else {
      assert (fs + [f])[0] == fs[0] && (fs + [f])[1..] == fs[1..] + [f];
      SuitsLast(fs[1..], f, m, known + {fs[0].name});
      NamesSplit(fs);
      assert known + Names(fs) == known + {fs[0].name} + Names(fs[1..]);
    }
  }

  /** Every field is restored if rows counted in larger units come last. */
  lemma {:induction false} Restored(fs: seq<Field>, f: Field, m: Attrs, post: seq<Byte>)
    requires Suits(fs + [f], m, {}) && AllByBytes(fs, m)
    ensures Generate(fs + [f], m).Some?
    ensures (var r := Extract(fs + [f], Generate(fs + [f], m).value + post, map[], 0);
      r.Some? && Agree(r.value.attrs, m, Names(fs + [f])))
  {
    SuitsLast(fs, f, m, {});
    Generates(fs + [f], m, {});
    GenerateSplits(fs, [f], m);
    var s, t := Generate(fs, m).value, Pack(f, m).value;
    assert Generate([f], m) == Some(t + []) && t + [] == t;
    ReadsBack(fs, m, {}, map[], [], t + post);
    assert [] + s + (t + post) == s + t + post;
    assert {} + Names(fs) == Names(fs);
    LastBack(fs, f, m, s, t, post);
  }

  lemma LastBack(fs: seq<Field>, f: Field, m: Attrs, s: seq<Byte>, t: seq<Byte>, post: seq<Byte>)
    requires f.name in m && FieldSuits(f, m, Names(fs)) && Pack(f, m) == Some(t)
    requires (var r := Extract(fs, s + t + post, map[], 0);
      r.Some? && r.value.offset == |s| && Agree(r.value.attrs, m, Names(fs)))
    ensures (var r := Extract(fs + [f], s + t + post, map[], 0); r.Some? && Agree(r.value.attrs, m, Names(fs + [f])))
  {
    var all := s + t + post;
    var e := Extract(fs, all, map[], 0).value;
    UnpackBack(f, m, Names(fs), e.attrs, s, post);
    ExtractSplits(fs, [f], all, map[], 0);
    OneField(f, all, e.attrs, |s|);
    forall n | n in Names(fs + [f]) ensures n in Names(fs) || n == f.name {}
  }

  lemma OneField(f: Field, msg: seq<Byte>, attrs: Attrs, offset: nat)
    requires Unpack(f, attrs, msg, offset).Some?
    ensures (var u := Unpack(f, attrs, msg, offset).value;
      Extract([f], msg, attrs, offset) == Some(Extracted(attrs[f.name := u.v], u.next)))
  {
    assert [f][1..] == [];
  }

  /** The bytes that reading the fields passes over, and those they take. */
  function Passed(fs: seq<Field>, m: Attrs): nat
  {
    if fs == [] then 0
    else (match fs[0]
          case Fixed(_, size, _) => size
          case Counted(_, _, src) => match Width(m, src) case Some(w) => w case None => 0) + Passed(fs[1..], m)
  }

  /** If all fields come out right, so did every length, and the end is where the lengths say. */
  lemma {:induction false} EndsAt(fs: seq<Field>, m: Attrs, known: set<string>, attrs: Attrs, msg: seq<Byte>,
                                  offset: nat)
    requires Suits(fs, m, known) && Agree(attrs, m, known)
    requires (var r := Extract(fs, msg, attrs, offset); r.Some? && Agree(r.value.attrs, m, known + Names(fs)))
    ensures Extract(fs, msg, attrs, offset).value.offset == offset + Passed(fs, m)
  {
    if fs != [] {
      var f := fs[0];
      var u := Unpack(f, attrs, msg, offset).value;
      var attrs1 := attrs[f.name := u.v];
      NamesSplit(fs);
      assert known + Names(fs) == known + {f.name} + Names(fs[1..]);
      Unchanged(fs[1..], m, known + {f.name}, msg, attrs1, u.next, f.name);
      assert Agree(attrs1, m, known + {f.name});
      EndsAt(fs[1..], m, known + {f.name}, attrs1, msg, u.next);
      if f.Counted? { assert Width(attrs, f.src) == Width(m, f.src); }
    }
  }

  /** What has been read is not read over. */
  lemma {:induction false} Unchanged(fs: seq<Field>, m: Attrs, known: set<string>, msg: seq<Byte>, attrs: Attrs,
                                     offset: nat, n: string)
    requires Suits(fs, m, known) && n in known && n in attrs
    ensures (var r := Extract(fs, msg, attrs, offset); r.Some? ==> n in r.value.attrs && r.value.attrs[n] == attrs[n])
  {
    if fs != [] {
      var u := Unpack(fs[0], attrs, msg, offset);
      if u.Some? {
        Unchanged(fs[1..], m, known + {fs[0].name}, msg, attrs[fs[0].name := u.value.v], u.value.next, n);
      }
    }
  }

  lemma {:induction false} PassedOrTaken(fs: seq<Field>, m: Attrs, known: set<string>)
    requires Suits(fs, m, known)
    ensures Generate(fs, m).Some? && Passed(fs, m) <= |Generate(fs, m).value|
    ensures Passed(fs, m) == |Generate(fs, m).value| ==> AllByBytes(fs, m)
  {
    if fs != [] {
      var f, rest := fs[0], fs[1..];
      PassedOrTaken(rest, m, known + {f.name});
      if f.Counted? {
        var w := Width(m, f.src).value;
        Multiple(f.unit, w);
      }
      if Passed(fs, m) == |Generate(fs, m).value| {
        forall i | 0 <= i < |fs| ensures ByBytes(fs[i], m) {
          if i > 0 { assert ByBytes(rest[i - 1], m); }
        }
      }
    }
  }

  lemma Multiple(u: nat, w: nat)
    requires u > 0
    ensures u * w >= w && (u * w == w ==> u == 1 || w == 0)
  {
    if u > 1 && w > 0 { assert u * w == w + (u - 1) * w; }
  }

  /** Reading what was written restores every field and returns the full length if and only if every
      row of bytes is counted in bytes, or empty. */
  lemma {:induction false} RoundTripsIff(fs: seq<Field>, m: Attrs, post: seq<Byte>)
    requires Suits(fs, m, {})
    ensures RoundTrips(fs, m, post) <==> AllByBytes(fs, m)
  {
    Generates(fs, m, {});
    var s := Generate(fs, m).value;
    assert {} + Names(fs) == Names(fs);
    if AllByBytes(fs, m) {
      ReadsBack(fs, m, {}, map[], [], post);
      assert [] + s + post == s + post;
    }
    if RoundTrips(fs, m, post) {
      EndsAt(fs, m, {}, map[], s + post, 0);
      PassedOrTaken(fs, m, {});
    }
  }

  // ---------- classes ----------

  /** A message class: the root, which has no fields, or one that adds fields to its parent's. */
  datatype Class = Msg | Derived(parent: Class, fmt: seq<Field>)

  function FieldsOf(c: Class): seq<Field>
  {
    match c
    case Msg => []
    case Derived(p, fmt) => FieldsOf(p) + fmt
  }

  predicate IsA(c: Class, d: Class)
  {
    c == d || (c.Derived? && IsA(c.parent, d))
  }

  const TYPE_FIELD := Fixed("type", 4, true)
  const BASIC_MSG := Derived(Msg, [TYPE_FIELD, Fixed("switch_id", 4, true), Fixed("req_id", 8, false)])

  lemma {:induction false} ExtractSplits(fs: seq<Field>, gs: seq<Field>, msg: seq<Byte>, attrs: Attrs, offset: nat)
    ensures Extract(fs + gs, msg, attrs, offset) ==
      match Extract(fs, msg, attrs, offset)
      case None => None
      case Some(e) => Extract(gs, msg, e.attrs, e.offset)
  {
    if fs == [] {
      assert fs + gs == gs;
    } else {
      assert (fs + gs)[1..] == fs[1..] + gs;
      var u := Unpack(fs[0], attrs, msg, offset);
      if u.Some? { ExtractSplits(fs[1..], gs, msg, attrs[fs[0].name := u.value.v], u.value.next); }
    }
  }

  lemma {:induction false} GenerateSplits(fs: seq<Field>, gs: seq<Field>, m: Attrs)
    ensures Generate(fs + gs, m) ==
      match (Generate(fs, m), Generate(gs, m))
      case (Some(s), Some(t)) => Some(s + t)
      case _ => None
  {
    if fs == [] {
      assert fs + gs == gs;
      if Generate(gs, m).Some? { assert [] + Generate(gs, m).value == Generate(gs, m).value; }
    } else {
      assert (fs + gs)[1..] == fs[1..] + gs;
      GenerateSplits(fs[1..], gs, m);
      var p, s, t := Pack(fs[0], m), Generate(fs[1..], m), Generate(gs, m);
      if p.Some? && s.Some? && t.Some? { assert p.value + (s.value + t.value) == p.value + s.value + t.value; }
    }
  }

  lemma {:induction false} BaseFirst(c: Class, d: Class) returns (more: seq<Field>)
    requires IsA(c, d)
    ensures FieldsOf(c) == FieldsOf(d) + more
  {
    if c == d {
      more := [];
    } else {
      var rest := BaseFirst(c.parent, d);
      more := rest + c.fmt;
    }
  }

  lemma {:induction false} SuitsSplits(fs: seq<Field>, gs: seq<Field>, m: Attrs, known: set<string>)
    requires Suits(fs + gs, m, known)
    ensures Suits(fs, m, known)
  {
    if fs != [] {
      assert (fs + gs)[0] == fs[0] && (fs + gs)[1..] == fs[1..] + gs;
      SuitsSplits(fs[1..], gs, m, known + {fs[0].name});
    }
  }

  lemma BasicFields()
    ensures FieldsOf(BASIC_MSG) == BASIC_MSG.fmt && "type" in Names(FieldsOf(BASIC_MSG))
    ensures forall m: Attrs :: AllByBytes(FieldsOf(BASIC_MSG), m)
    ensures forall m: Attrs, known: set<string> ::
      Suits(FieldsOf(BASIC_MSG), m, known) ==> "type" in m && m["type"].Int?
  {
    assert [] + BASIC_MSG.fmt == BASIC_MSG.fmt;
    assert BASIC_MSG.fmt[0] == TYPE_FIELD && TYPE_FIELD in BASIC_MSG.fmt;
  }

  /** `data` are the bytes of the message `m` of the class `c`. */
  ghost predicate IsMessage(data: seq<Byte>, c: Class, m: Attrs)
  {
    IsA(c, BASIC_MSG) && Suits(FieldsOf(c), m, {}) && Generate(FieldsOf(c), m) == Some(data)
  }

  lemma {:induction false} PrefixIsRead(fs: seq<Field>, gs: seq<Field>, m: Attrs, data: seq<Byte>)
    requires Suits(fs + gs, m, {}) && AllByBytes(fs, m) && Generate(fs + gs, m) == Some(data)
    ensures (var r := Extract(fs, data, map[], 0); r.Some? && Agree(r.value.attrs, m, Names(fs)))
  {
    SuitsSplits(fs, gs, m, {});
    GenerateSplits(fs, gs, m);
    var s, t := Generate(fs, m).value, Generate(gs, m).value;
    ReadsBack(fs, m, {}, map[], [], t);
    assert [] + s + t == s + t;
  }

  /** Reading any message as a plain `BasicMsg` already gives its type. */
  lemma {:induction false} TypeIsRead(data: seq<Byte>, c: Class, m: Attrs)
    requires IsMessage(data, c, m)
    ensures (var r := Extract(FieldsOf(BASIC_MSG), data, map[], 0);
      r.Some? && "type" in m && m["type"].Int? && Agree(r.value.attrs, m, {"type"}))
  {
    var more := BaseFirst(c, BASIC_MSG);
    BasicFields();
    SuitsSplits(FieldsOf(BASIC_MSG), more, m, {});
    PrefixIsRead(FieldsOf(BASIC_MSG), more, m, data);
  }

  // ---------- the header ----------

  /** The number in the four bytes from `i` on. */
  function Unsigned4(d: seq<Byte>, i: nat): nat
    requires i + 4 <= |d|
  {
    var n0: nat, n1: nat, n2: nat, n3: nat := d[i], d[i + 1], d[i + 2], d[i + 3];
    n0 + 0x100 * n1 + 0x1_0000 * n2 + 0x100_0000 * n3
  }

  /** The signed number in the four bytes from `i` on. */
  function Signed4(d: seq<Byte>, i: nat): int
    requires i + 4 <= |d|
  {
    if d[i + 3] >= 0x80 then Unsigned4(d, i) - 0x1_0000_0000 else Unsigned4(d, i)
  }

  /** The number in the eight bytes from `i` on. */
  function Unsigned8(d: seq<Byte>, i: nat): nat
    requires i + 8 <= |d|
  {
    Unsigned4(d, i) + 0x1_0000_0000 * Unsigned4(d, i + 4)
  }

  lemma NaturalFrom(s: seq<Byte>, i: nat)
    requires i < |s|
    ensures Natural(s[i..]) == s[i] + 256 * Natural(s[i + 1..])
  {
    assert s[i..][1..] == s[i + 1..];
  }

  lemma Natural4(s: seq<Byte>, i: nat)
    requires i + 4 <= |s|
    ensures Natural(s[i..]) == Unsigned4(s, i) + 0x1_0000_0000 * Natural(s[i + 4..])
  {
    NaturalFrom(s, i);
    NaturalFrom(s, i + 1);
    NaturalFrom(s, i + 2);
    NaturalFrom(s, i + 3);
  }

  lemma Powers()
    ensures Pow256(4) == 0x1_0000_0000 && Pow256(8) == 0x1_0000_0000_0000_0000
  {
    assert Pow256(1) == 256 && Pow256(2) == 0x1_0000 && Pow256(3) == 0x100_0000;
    assert Pow256(5) == 0x100_0000_0000 && Pow256(6) == 0x1_0000_0000_0000 && Pow256(7) == 0x100_0000_0000_0000;
  }

  lemma IntAt(d: seq<Byte>, i: nat)
    requires i + 4 <= |d|
    ensures Decode(d[i..i + 4], true) == Signed4(d, i)
  {
    var s := d[i..i + 4];
    Natural4(s, 0);
    assert s[0..] == s && s[4..] == [];
    Powers();
  }

  lemma LongAt(d: seq<Byte>, i: nat)
    requires i + 8 <= |d|
    ensures Decode(d[i..i + 8], false) == Unsigned8(d, i)
  {
    var s := d[i..i + 8];
    Natural4(s, 0);
    Natural4(s, 4);
    assert s[0..] == s && s[8..] == [];
  }

  function HeaderOf(d: seq<Byte>): Attrs
    requires |d| >= 16
  {
    map["type" := Int(Signed4(d, 0)), "switch_id" := Int(Signed4(d, 4)), "req_id" := Int(Unsigned8(d, 8))]
  }

  /** Read as a plain `BasicMsg`, any sixteen bytes hold the type, the switch and the request, in this
      order and each with its lowest byte first; fewer bytes hold no message. */
  lemma HeaderBytes(d: seq<Byte>)
    ensures var r := Extract(FieldsOf(BASIC_MSG), d, map[], 0);
      if |d| < 16 then r.None? else r == Some(Extracted(HeaderOf(d), 16))
  {
    BasicFields();
    var fs := BASIC_MSG.fmt;
    NumberFirst(fs, d, map[], 0);
    if |d| >= 4 {
      IntAt(d, 0);
      SwitchFirst(d, map["type" := Int(Signed4(d, 0))]);
    }
  }

  lemma SwitchFirst(d: seq<Byte>, attrs: Attrs)
    requires |d| >= 4
    ensures Extract(BASIC_MSG.fmt[1..], d, attrs, 4) ==
      if |d| < 16 then None
      else Some(Extracted(attrs["switch_id" := Int(Signed4(d, 4))]["req_id" := Int(Unsigned8(d, 8))], 16))
  {
    var fs := BASIC_MSG.fmt[1..];
    NumberFirst(fs, d, attrs, 4);
    if |d| >= 8 {
      IntAt(d, 4);
      RequestLast(d, attrs["switch_id" := Int(Signed4(d, 4))]);
      assert fs[1..] == BASIC_MSG.fmt[2..];
    }
  }

  lemma RequestLast(d: seq<Byte>, attrs: Attrs)
    requires |d| >= 8
    ensures Extract(BASIC_MSG.fmt[2..], d, attrs, 8) ==
      if |d| < 16 then None else Some(Extracted(attrs["req_id" := Int(Unsigned8(d, 8))], 16))
  {
    var fs := BASIC_MSG.fmt[2..];
    NumberFirst(fs, d, attrs, 8);
    assert fs[1..] == [];
    if |d| >= 16 { LongAt(d, 8); }
  }

  lemma NumberFirst(fs: seq<Field>, d: seq<Byte>, attrs: Attrs, i: nat)
    requires fs != [] && fs[0].Fixed?
    ensures Extract(fs, d, attrs, i) ==
      if i + fs[0].size > |d| then None
      else Extract(fs[1..], d, attrs[fs[0].name := Int(Decode(d[i..i + fs[0].size], fs[0].signed))], i + fs[0].size)
  {}

  // ---------- the codec as it runs ----------

  class Message {
    var attrs: Attrs

    constructor ()
      ensures attrs == map[]
    {
      attrs := map[];
    }

    /** First the parent's fields, then the class's own; gives the offset behind them. */
    method Read(c: Class, msg: seq<Byte>) returns (offset: Option<nat>)
      modifies this
      ensures match Extract(FieldsOf(c), msg, old(attrs), 0) {
        case Some(e) => offset == Some(e.offset) && attrs == e.attrs
        case None => offset.None? }
      decreases c
    {
      if c == Msg { return Some(0); }
      var at := Read(c.parent, msg);
      ExtractSplits(FieldsOf(c.parent), c.fmt, msg, old(attrs), 0);
      if at.None? { return None; }
      var o := at.value;
      ghost var want := Extract(c.fmt, msg, attrs, o);
      assert c.fmt[0..] == c.fmt;
      for i := 0 to |c.fmt|
        invariant Extract(c.fmt[i..], msg, attrs, o) == want
      {
        assert c.fmt[i..][1..] == c.fmt[i + 1..];
        var u := Unpack(c.fmt[i], attrs, msg, o);
        if u.None? { return None; }
        attrs, o := attrs[c.fmt[i].name := u.value.v], u.value.next;
      }
      offset := Some(o);
    }

    method Write(c: Class) returns (s: Option<seq<Byte>>)
      ensures s == Generate(FieldsOf(c), attrs)
      decreases c
    {
      if c == Msg { return Some([]); }
      s := Write(c.parent);
      GenerateSplits(FieldsOf(c.parent), c.fmt, attrs);
      if s.None? { return; }
      ghost var before := s.value;
      assert c.fmt[0..] == c.fmt;
      for i := 0 to |c.fmt|
        invariant s.Some?
        invariant match Generate(c.fmt[i..], attrs) {
          case Some(rest) => Generate(FieldsOf(c), attrs) == Some(s.value + rest)
          case None => Generate(FieldsOf(c), attrs).None? }
      {
        assert c.fmt[i..][1..] == c.fmt[i + 1..];
        var p := Pack(c.fmt[i], attrs);
        if p.None? { return None; }
        ghost var rest := Generate(c.fmt[i + 1..], attrs);
        if rest.Some? { assert s.value + (p.value + rest.value) == s.value + p.value + rest.value; }
        s := Some(s.value + p.value);
      }
      assert s.value + [] == s.value;
    }
  }

  /** `wait_for_msg`: the type is read first, and then the whole message as the class of that type. */
  method WaitForMsg(classes: map<int, Class>, data: seq<Byte>) returns (c: Option<Class>, msg: Message)
    ensures fresh(msg)
    ensures c == ChosenClass(classes, data)
    ensures c.Some? ==> msg.attrs == Extract(FieldsOf(c.value), data, map[], 0).value.attrs
    ensures forall k: Class, m: Attrs :: IsMessage(data, k, m) ==> Dispatched(classes, k, m, c, msg.attrs)
  {
    HeaderBytes(data);
    msg := new Message();
    c := None;
    var basic := msg.Read(BASIC_MSG, data);
    forall k: Class, m: Attrs | IsMessage(data, k, m)
      ensures basic.Some? && "type" in m && m["type"].Int? && Agree(msg.attrs, m, {"type"})
    {
      TypeIsRead(data, k, m);
    }
    if basic.None? || "type" !in msg.attrs || !msg.attrs["type"].Int? { return; }
    var t := msg.attrs["type"].n;
    if t !in classes { return; }
    msg := new Message();
    var end := msg.Read(classes[t], data);
    if end.Some? { c := Some(classes[t]); }
    forall k: Class, m: Attrs | IsMessage(data, k, m)
      ensures Dispatched(classes, k, m, c, msg.attrs)
    {
      assert m["type"].n == t;
      if classes[t] == k && LastMayCount(FieldsOf(k), m) {
        var fs := FieldsOf(k);
        var last := |fs| - 1;
        assert fs == fs[..last] + [fs[last]];
        Restored(fs[..last], fs[last], m, []);
        assert data + [] == data;
      }
    }
  }

  /** The class that is registered for the number in the first four bytes, if it can be read. */
  ghost function ChosenClass(classes: map<int, Class>, data: seq<Byte>): Option<Class>
  {
    if |data| < 16 || Signed4(data, 0) !in classes then None
    else
      var k := classes[Signed4(data, 0)];
      if Extract(FieldsOf(k), data, map[], 0).Some? then Some(k) else None
  }

  /** Only the last field may be a row that is counted in larger units. */
  ghost predicate LastMayCount(fs: seq<Field>, m: Attrs)
  {
    fs != [] && AllByBytes(fs[..|fs| - 1], m)
  }

  /** If the table has the class of the message under its type, that class is chosen and every field
      restored. */
  ghost predicate Dispatched(classes: map<int, Class>, k: Class, m: Attrs, c: Option<Class>, attrs: Attrs)
  {
    "type" in m && m["type"].Int? && m["type"].n in classes && classes[m["type"].n] == k && LastMayCount(FieldsOf(k), m)
    ==> c == Some(k) && Agree(attrs, m, Names(FieldsOf(k)))
  }

  const FILTER_FIELDS: seq<Field> := BASIC_MSG.fmt + [Fixed("nb", 4, true), Counted("ids", 16, "nb")]

  /** A filter on one id: its fields come back, but the length returned is 15 bytes short. */
  lemma FilterEndsEarly(m: Attrs, post: seq<Byte>)
    requires Suits(FILTER_FIELDS, m, {}) && Width(m, "nb") == Some(1)
    ensures !RoundTrips(FILTER_FIELDS, m, post)
  {
    RoundTripsIff(FILTER_FIELDS, m, post);
    var f := Counted("ids", 16, "nb");
    assert FILTER_FIELDS[4] == f && !ByBytes(f, m);
  }
}
