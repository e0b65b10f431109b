/** Ids for the symbols P4Runtime can see: what the symbol table computes. */
module SymbolIds {
  import opened Options

  const WORD := 0x1_0000_0000
  type U32 = x: int | 0 <= x < 0x1_0000_0000
  type Byte = x: int | 0 <= x < 0x100

  datatype SymbolType = ACTION | ACTION_PROFILE | COUNTER | METER | TABLE

  /** What the table is given: the value that stands for "no id" and the resource type of each kind of
      symbol (both from headers of the PI library), and the hash of a name. */
  datatype Params = Params(invalid: U32, prefix: SymbolType -> Byte, hash: string -> U32)

  type Table = map<string, U32>

  /** `errors` counts the errors reported. */
  datatype Symbols = Symbols(tables: map<SymbolType, Table>, taken: set<U32>, errors: nat)

  /** One call of `add`. */
  datatype Request = Request(kind: SymbolType, name: string, id: Option<U32>)

  // ---------- the order of names ----------

  /** `strcmp(a, b) < 0` */
  predicate Less(a: string, b: string)
  {
    if b == [] then false
    else if a == [] then true
    else a[0] < b[0] || (a[0] == b[0] && Less(a[1..], b[1..]))
  }

  lemma {:induction false} LessTotal(a: string, b: string)
    ensures a == b || Less(a, b) || Less(b, a)
    ensures !(Less(a, b) && Less(b, a)) && !(a == b && Less(a, b))
    decreases |a|
  {
    if a != [] && b != [] {
      LessTotal(a[1..], b[1..]);
      if a[0] == b[0] && a[1..] == b[1..] {
        assert a == [a[0]] + a[1..] == b;
      }
    }
  }

  lemma {:induction false} LessTransitive(a: string, b: string, c: string)
    requires Less(a, b) && Less(b, c)
    ensures Less(a, c)
    decreases |a|
  {
    if a != [] && a[0] == b[0] == c[0] { LessTransitive(a[1..], b[1..], c[1..]); }
  }

  ghost predicate Sorted(names: seq<string>)
  {
    forall i, j :: 0 <= i < j < |names| ==> Less(names[i], names[j])
  }

  /** A set of names has one sorted listing. */
  lemma {:induction false} SortedIsUnique(a: seq<string>, b: seq<string>)
    requires Sorted(a) && Sorted(b) && forall n :: n in a <==> n in b
    ensures a == b
    decreases |a|
  {
    assert a != [] ==> a[0] in b;
    assert b != [] ==> b[0] in a;
    if a != [] && b != [] {
      var x, y := a[0], b[0];
      assert x in b && y in a;
      LessTotal(x, y);
      forall n ensures n in a[1..] <==> n in b[1..] {
        LessTotal(n, x);
        if n in a[1..] { assert n in a; }
        if n in b[1..] { assert n in b; }
      }
      SortedIsUnique(a[1..], b[1..]);
    }
  }

  // ---------- probing ----------

  /** `(resourceType << 24) | (value & 0xffff)` */
  function ConstructId(prefix: Byte, value: int): (id: U32)
    ensures id / 0x100_0000 == prefix && id % 0x100_0000 < 0x1_0000
  {
    prefix * 0x100_0000 + value % 0x1_0000
  }

  /** The `k`-th id tried: the value is a `uint32_t` and wraps around. */
  function ProbeId(prefix: Byte, hash: U32, k: nat): U32
  {
    ConstructId(prefix, (hash + k) % WORD)
  }

  /** The first free id at or after the `k`-th position of the probe sequence. */
  function Probe(taken: set<U32>, prefix: Byte, hash: U32, k: nat): (r: Option<U32>)
    requires k <= 0x1_0000
    decreases 0x1_0000 - k
  {
    if k == 0x1_0000 then None
    else if ProbeId(prefix, hash, k) !in taken then Some(ProbeId(prefix, hash, k))
    else Probe(taken, prefix, hash, k + 1)
  }

  predicate HasPrefix(id: U32, prefix: Byte)
  {
    id / 0x100_0000 == prefix && id % 0x100_0000 < 0x1_0000
  }

  /** The ids tried depend on the low half of the value only. */
  lemma ProbeIdIs(prefix: Byte, hash: U32, k: nat)
    ensures ProbeId(prefix, hash, k) == prefix * 0x100_0000 + (hash + k) % 0x1_0000
    ensures HasPrefix(ProbeId(prefix, hash, k), prefix)
  {
    ModMod(hash + k);
  }

  lemma ModMod(v: nat)
    ensures v % WORD % 0x1_0000 == v % 0x1_0000
  {
    var q, r := v / WORD, v % WORD;
    assert v == 0x1_0000 * (0x1_0000 * q) + r;
    AddMultiple(r, 0x1_0000 * q);
  }

  lemma {:induction false} AddMultiple(r: nat, q: nat)
    ensures (0x1_0000 * q + r) % 0x1_0000 == r % 0x1_0000
  {
    var a := r / 0x1_0000;
    assert 0x1_0000 * q + r == 0x1_0000 * (q + a) + r % 0x1_0000;
  }

  /** Every id of a resource type is met within one round. */
  lemma EveryIdIsProbed(prefix: Byte, hash: U32, id: U32) returns (k: nat)
    requires HasPrefix(id, prefix)
    ensures k < 0x1_0000 && ProbeId(prefix, hash, k) == id
  {
    k := StepsTo(hash, id % 0x1_0000);
    ProbeIdIs(prefix, hash, k);
  }

  lemma StepsTo(hash: nat, low: nat) returns (k: nat)
    requires low < 0x1_0000
    ensures k < 0x1_0000 && (hash + k) % 0x1_0000 == low
  {
    var h, m := hash % 0x1_0000, hash / 0x1_0000;
    k := if low >= h then low - h else low + 0x1_0000 - h;
    assert hash + k == 0x1_0000 * (if low >= h then m else m + 1) + low;
    AddMultiple(low, if low >= h then m else m + 1);
  }

  /** The `j`-th id tried is `id`, and it is the first that is free. */
  ghost predicate FirstFree(taken: set<U32>, prefix: Byte, hash: U32, j: nat, id: U32)
  {
    id == ProbeId(prefix, hash, j) && id !in taken && forall i :: 0 <= i < j ==> ProbeId(prefix, hash, i) in taken
  }

  ghost predicate AllTaken(taken: set<U32>, prefix: Byte)
  {
    forall id: U32 :: HasPrefix(id, prefix) ==> id in taken
  }

  /** Probing finds a free id of the resource type, the first in cyclic order from the hash, and fails
      exactly if all 65536 are taken. */
  lemma {:induction false} ProbeIsComplete(taken: set<U32>, prefix: Byte, hash: U32, k: nat)
    requires k <= 0x1_0000 && forall j :: 0 <= j < k ==> ProbeId(prefix, hash, j) in taken
    ensures var r := Probe(taken, prefix, hash, k);
      && (r.None? <==> AllTaken(taken, prefix))
      && (r.Some? ==>
            && HasPrefix(r.value, prefix)
            && exists j :: k <= j < 0x1_0000 && FirstFree(taken, prefix, hash, j, r.value))
    decreases 0x1_0000 - k
  {
    if k == 0x1_0000 {
      forall id: U32 | HasPrefix(id, prefix) ensures id in taken {
        var j := EveryIdIsProbed(prefix, hash, id);
      }
    } else if ProbeId(prefix, hash, k) !in taken {
      ProbeIdIs(prefix, hash, k);
      assert FirstFree(taken, prefix, hash, k, ProbeId(prefix, hash, k));
    } else {
      ProbeIsComplete(taken, prefix, hash, k + 1);
    }
  }

  // ---------- the table ----------

  const EMPTY := Symbols(map[ACTION := map[], ACTION_PROFILE := map[], COUNTER := map[], METER := map[],
    TABLE := map[]], {}, 0)

  ghost predicate Complete(s: Symbols)
  {
    forall k: SymbolType :: k in s.tables
  }

  function SetId(s: Symbols, kind: SymbolType, name: string, id: U32): Symbols
    requires kind in s.tables
  {
    var t: Table := s.tables[kind][name := id];
    s.(tables := s.tables[kind := t])
  }

  /** `add`: a name that is there already is left alone; an explicit id is kept if it is free. */
  function Add(p: Params, s: Symbols, r: Request): Symbols
    requires r.kind in s.tables
  {
    if r.name in s.tables[r.kind] then s
    else
      match r.id
      case None => SetId(s, r.kind, r.name, p.invalid)
      case Some(id) =>
        if id in s.taken then SetId(s, r.kind, r.name, p.invalid).(errors := s.errors + 1)
        else SetId(s, r.kind, r.name, id).(taken := s.taken + {id})
  }

  lemma EmptyIsComplete()
    ensures Complete(EMPTY)
  {
    forall k: SymbolType ensures k in EMPTY.tables {
      match k
      case ACTION =>
      case ACTION_PROFILE =>
      case COUNTER =>
      case METER =>
      case TABLE =>
    }
  }

  ghost function AddAll(p: Params, rs: seq<Request>): (s: Symbols)
    ensures Complete(s)
  {
    if rs == [] then EmptyIsComplete(); EMPTY else Add(p, AddAll(p, rs[..|rs| - 1]), rs[|rs| - 1])
  }

  /** The loop of `computeIdsForSymbols` over the sorted names that still need an id. */
  function Assign(p: Params, s: Symbols, kind: SymbolType, names: seq<string>): (r: Symbols)
    requires kind in s.tables
    ensures r.tables.Keys == s.tables.Keys
    decreases |names|
  {
    if names == [] then s
    else
      match Probe(s.taken, p.prefix(kind), p.hash(names[0]), 0)
      case None => s.(errors := s.errors + 1)
      case Some(id) =>
        Assign(p, SetId(s, kind, names[0], id).(taken := s.taken + {id}), kind, names[1..])
  }

  predicate Needs(p: Params, t: Table, n: string)
  {
    n in t && t[n] == p.invalid
  }

  /** `names` are, in order, those of `keys` without an id. */
  ghost predicate Listing(p: Params, t: Table, keys: set<string>, names: seq<string>)
  {
    Sorted(names) && forall n :: n in names <==> n in keys && Needs(p, t, n)
  }

  /** The sorted names of `t` without an id. */
  ghost function Unassigned(p: Params, t: Table): (names: seq<string>)
    ensures Listing(p, t, t.Keys, names)
  {
    ListingExists(p, t, t.Keys);
    var names :| Listing(p, t, t.Keys, names);
    names
  }

  lemma {:induction false} ListingExists(p: Params, t: Table, keys: set<string>)
    requires keys <= t.Keys
    ensures exists names :: Listing(p, t, keys, names)
    decreases keys
  {
    if keys == {} {
      assert Listing(p, t, keys, []);
    } else {
      var n :| n in keys;
      ListingExists(p, t, keys - {n});
      var names :| Listing(p, t, keys - {n}, names);
      if Needs(p, t, n) {
        var names' := InsertName(names, n);
        assert Listing(p, t, keys, names');
      } else {
        assert Listing(p, t, keys, names);
      }
    }
  }

  lemma {:induction false} InsertName(names: seq<string>, n: string) returns (r: seq<string>)
    requires Sorted(names) && n !in names
    ensures Sorted(r) && forall m :: m in r <==> m == n || m in names
    decreases |names|
  {
    if names == [] {
      r := [n];
    } else {
      LessTotal(n, names[0]);
      assert names == [names[0]] + names[1..];
      if Less(n, names[0]) {
        r := [n] + names;
        forall j | 0 < j < |r| ensures Less(n, r[j]) {
          if j > 1 { LessTransitive(n, names[0], names[j - 1]); }
        }
      } else {
        var rest := InsertName(names[1..], n);
        r := [names[0]] + rest;
        forall j | 0 < j < |r| ensures Less(names[0], r[j]) { assert rest[j - 1] in rest; }
      }
    }
  }

  /** `computeIdsForSymbols` */
  ghost function Compute(p: Params, s: Symbols, kind: SymbolType): (r: Symbols)
    requires Complete(s)
    ensures Complete(r)
  {
    Assign(p, s, kind, Unassigned(p, s.tables[kind]))
  }

  /** `create`: the symbols are collected, then the ids are computed, kind by kind. */
  ghost function Create(p: Params, rs: seq<Request>): (s: Symbols)
    ensures Complete(s)
  {
    Compute(p, Compute(p, Compute(p, Compute(p, Compute(p, AddAll(p, rs), ACTION), TABLE), ACTION_PROFILE),
      COUNTER), METER)
  }

  // ---------- the order of the calls does not matter ----------

  /** No two different requests are for the same symbol or for the same explicit id. */
  ghost predicate Compatible(rs: seq<Request>)
  {
    forall a, b :: a in rs && b in rs && a != b ==>
      !(a.kind == b.kind && a.name == b.name) && !(a.id.Some? && a.id == b.id)
  }

  /** The table after the calls `rs`, as a function of the set of requests. */
  ghost predicate Holds(p: Params, s: Symbols, rs: seq<Request>)
    requires Complete(s)
  {
    && (forall k: SymbolType, n :: HoldsAt(p, s.tables[k], rs, k, n))
    && (forall id :: id in s.taken <==> Claimed(rs, id))
    && s.errors == 0
  }

  ghost predicate HoldsAt(p: Params, t: Table, rs: seq<Request>, k: SymbolType, n: string)
  {
    && (n in t <==> exists r :: r in rs && r.kind == k && r.name == n)
    && (forall r :: r in rs && r.kind == k && r.name == n && n in t
          ==> t[n] == if r.id.Some? then r.id.value else p.invalid)
  }

  ghost predicate Claimed(rs: seq<Request>, id: U32)
  {
    exists r :: r in rs && r.id == Some(id)
  }

  lemma {:induction false} AddAllHolds(p: Params, rs: seq<Request>)
    requires Compatible(rs)
    ensures Holds(p, AddAll(p, rs), rs)
    decreases |rs|
  {
    if rs == [] {
      EmptyIsComplete();
      forall k: SymbolType, n ensures HoldsAt(p, EMPTY.tables[k], rs, k, n) { EmptyTables(k); }
    } else {
      var qs, r := rs[..|rs| - 1], rs[|rs| - 1];
      assert rs == qs + [r] && r in rs;
      assert forall q :: q in qs ==> q in rs;
      assert forall q :: q in rs ==> q in qs || q == r;
      AddAllHolds(p, qs);
      AddHolds(p, AddAll(p, qs), rs, qs, r);
    }
  }

  lemma EmptyTables(k: SymbolType)
    requires k in EMPTY.tables
    ensures EMPTY.tables[k] == map[]
  {
    match k
    case ACTION =>
    case ACTION_PROFILE =>
    case COUNTER =>
    case METER =>
    case TABLE =>
  }

  lemma AddHolds(p: Params, s: Symbols, rs: seq<Request>, qs: seq<Request>, r: Request)
    requires Compatible(rs) && Complete(s) && Holds(p, s, qs) && r in rs
    requires (forall q :: q in qs ==> q in rs) && forall q :: q in rs ==> q in qs || q == r
    ensures Holds(p, Add(p, s, r), rs)
  {
    var s' := Add(p, s, r);
    assert HoldsAt(p, s.tables[r.kind], qs, r.kind, r.name);
    if r.name !in s.tables[r.kind] && r.id.Some? {
      assert !Claimed(qs, r.id.value);
    }
    forall k: SymbolType, n ensures HoldsAt(p, s'.tables[k], rs, k, n) {
      assert HoldsAt(p, s.tables[k], qs, k, n);
    }
    forall id ensures id in s'.taken <==> Claimed(rs, id) {
      assert id in s.taken <==> Claimed(qs, id);
    }
  }

  lemma SameCollection(p: Params, rs: seq<Request>, qs: seq<Request>)
    requires Compatible(rs) && forall r :: r in rs <==> r in qs
    ensures AddAll(p, rs) == AddAll(p, qs)
  {
    AddAllHolds(p, rs);
    AddAllHolds(p, qs);
    var s, u := AddAll(p, rs), AddAll(p, qs);
    forall k: SymbolType ensures s.tables[k] == u.tables[k] { SameTable(p, s, u, rs, qs, k); }
    assert s.tables == u.tables;
    SameTaken(p, s, u, rs, qs);
  }

  lemma SameTaken(p: Params, s: Symbols, u: Symbols, rs: seq<Request>, qs: seq<Request>)
    requires Complete(s) && Complete(u) && Holds(p, s, rs) && Holds(p, u, qs) && forall r :: r in rs <==> r in qs
    ensures s.taken == u.taken
  {
    forall id ensures id in s.taken <==> id in u.taken {
      assert (id in s.taken <==> Claimed(rs, id)) && (id in u.taken <==> Claimed(qs, id))
        && (Claimed(rs, id) <==> Claimed(qs, id));
    }
  }

  /** Any order of the calls, and any repetition of them, yields the same tables for all five kinds. */
  lemma OrderIsIrrelevant(p: Params, rs: seq<Request>, qs: seq<Request>)
    requires Compatible(rs) && forall r :: r in rs <==> r in qs
    ensures Create(p, rs) == Create(p, qs)
  {
    SameCollection(p, rs, qs);
  }

  lemma SameTable(p: Params, s: Symbols, u: Symbols, rs: seq<Request>, qs: seq<Request>, k: SymbolType)
    requires Complete(s) && Complete(u) && Holds(p, s, rs) && Holds(p, u, qs) && forall r :: r in rs <==> r in qs
    ensures s.tables[k] == u.tables[k]
  {
    forall n ensures (n in s.tables[k] <==> n in u.tables[k])
      && (n in s.tables[k] ==> s.tables[k][n] == u.tables[k][n]) {
      assert HoldsAt(p, s.tables[k], rs, k, n) && HoldsAt(p, u.tables[k], qs, k, n);
    }
  }

  // ---------- ids are unique ----------

  /** A symbol with an id. */
  ghost predicate Has(p: Params, s: Symbols, k: SymbolType, n: string)
    requires Complete(s)
  {
    n in s.tables[k] && s.tables[k][n] != p.invalid
  }

  ghost predicate Unique(p: Params, s: Symbols)
  {
    && Complete(s)
    && (forall k, n :: Has(p, s, k, n) ==> s.tables[k][n] in s.taken)
    && (forall k, n, l, m :: Has(p, s, k, n) && Has(p, s, l, m) && (k, n) != (l, m)
          ==> s.tables[k][n] != s.tables[l][m])
  }

  lemma AddKeepsUnique(p: Params, s: Symbols, r: Request)
    requires Unique(p, s)
    ensures Unique(p, Add(p, s, r))
  {
    var s' := Add(p, s, r);
    forall k, n ensures AddedAt(p, s, s', r, k, n) { AddAt(p, s, r, k, n); }
    forall k, n | Has(p, s', k, n) ensures s'.tables[k][n] in s'.taken { assert AddedAt(p, s, s', r, k, n); }
    forall k, n, l, m | Has(p, s', k, n) && Has(p, s', l, m) && (k, n) != (l, m)
      ensures s'.tables[k][n] != s'.tables[l][m]
    {
      assert AddedAt(p, s, s', r, k, n) && AddedAt(p, s, s', r, l, m);
    }
  }

  /** A symbol that has an id had it before, or it is the one that was added and its id is new. */
  ghost predicate AddedAt(p: Params, s: Symbols, s': Symbols, r: Request, k: SymbolType, n: string)
    requires Complete(s) && Complete(s')
  {
    && s.taken <= s'.taken
    && (Has(p, s', k, n) ==>
          if Has(p, s, k, n) then s'.tables[k][n] == s.tables[k][n]
          else (k, n) == (r.kind, r.name) && s'.tables[k][n] in s'.taken && s'.tables[k][n] !in s.taken)
  }

  lemma AddAt(p: Params, s: Symbols, r: Request, k: SymbolType, n: string)
    requires Complete(s)
    ensures Complete(Add(p, s, r)) && AddedAt(p, s, Add(p, s, r), r, k, n)
  {}

  lemma {:induction false} AddAllUnique(p: Params, rs: seq<Request>)
    ensures Unique(p, AddAll(p, rs))
  {
    if rs != [] {
      AddAllUnique(p, rs[..|rs| - 1]);
      AddKeepsUnique(p, AddAll(p, rs[..|rs| - 1]), rs[|rs| - 1]);
    }
  }

  /** The value for "no id" is not in the range of any resource type. */
  ghost predicate InvalidIsOutside(p: Params)
  {
    forall k: SymbolType :: !HasPrefix(p.invalid, p.prefix(k))
  }

  /** What an assignment of ids to the `names` of `kind` does to one symbol: an id that was there
      stays; a new one has the format of its resource type; a name is left without an id only if all
      ids of the type are taken. */
  ghost predicate AssignedAt(p: Params, s: Symbols, r: Symbols, kind: SymbolType, names: seq<string>, k: SymbolType,
                             n: string)
    requires Complete(s) && Complete(r)
  {
    && (n in r.tables[k] <==> n in s.tables[k])
    && (Has(p, s, k, n) ==> r.tables[k][n] == s.tables[k][n])
    && (Has(p, r, k, n) && !Has(p, s, k, n) ==> k == kind && n in names && HasPrefix(r.tables[k][n], p.prefix(kind)))
    && (k == kind && n in names && !Has(p, r, k, n) ==> AllTaken(r.taken, p.prefix(kind)))
  }

  ghost predicate Assigned(p: Params, s: Symbols, r: Symbols, kind: SymbolType, names: seq<string>)
  {
    Complete(s) && Complete(r) && forall k, n :: AssignedAt(p, s, r, kind, names, k, n)
  }

  lemma {:induction false} AssignWorks(p: Params, s: Symbols, kind: SymbolType, names: seq<string>)
    requires InvalidIsOutside(p) && Unique(p, s) && Sorted(names)
    requires forall n :: n in names ==> Needs(p, s.tables[kind], n)
    ensures var r := Assign(p, s, kind, names);
      Unique(p, r) && Assigned(p, s, r, kind, names)
    decreases |names|
  {
    if names != [] {
      var n := names[0];
      ProbeIsComplete(s.taken, p.prefix(kind), p.hash(n), 0);
      var out := Probe(s.taken, p.prefix(kind), p.hash(n), 0);
      if out.Some? {
        var s1 := SetId(s, kind, n, out.value).(taken := s.taken + {out.value});
        SetIdUnique(p, s, kind, n, out.value);
        forall m | m in names[1..] ensures Needs(p, s1.tables[kind], m) {
          LessTotal(n, m);
          assert m in names;
        }
        AssignWorks(p, s1, kind, names[1..]);
        AssignedThen(p, s, out.value, Assign(p, s1, kind, names[1..]), kind, names);
      }
    }
  }

  lemma SetIdUnique(p: Params, s: Symbols, kind: SymbolType, n: string, id: U32)
    requires Unique(p, s) && id !in s.taken && Needs(p, s.tables[kind], n)
    ensures Unique(p, SetId(s, kind, n, id).(taken := s.taken + {id}))
  {
    var s1 := SetId(s, kind, n, id).(taken := s.taken + {id});
    forall k, l ensures IdAt(p, s, s1, kind, n, id, k, l) {}
    forall k, l | Has(p, s1, k, l) ensures s1.tables[k][l] in s1.taken { assert IdAt(p, s, s1, kind, n, id, k, l); }
    forall k, a, l, b | Has(p, s1, k, a) && Has(p, s1, l, b) && (k, a) != (l, b)
      ensures s1.tables[k][a] != s1.tables[l][b]
    {
      assert IdAt(p, s, s1, kind, n, id, k, a) && IdAt(p, s, s1, kind, n, id, l, b);
    }
  }

  /** The new id is that of one symbol, and the others have theirs from before. */
  ghost predicate IdAt(
    p: Params, s: Symbols, s1: Symbols, kind: SymbolType, n: string, id: U32, k: SymbolType, l: string)
    requires Complete(s) && Complete(s1)
  {
    Has(p, s1, k, l) ==>
      if (k, l) == (kind, n) then s1.tables[k][l] == id else Has(p, s, k, l) && s1.tables[k][l] == s.tables[k][l]
  }

  lemma AssignedThen(p: Params, s: Symbols, id: U32, r: Symbols, kind: SymbolType, names: seq<string>)
    requires InvalidIsOutside(p) && Complete(s) && names != [] && Needs(p, s.tables[kind], names[0])
      && HasPrefix(id, p.prefix(kind))
    requires Assigned(p, SetId(s, kind, names[0], id).(taken := s.taken + {id}), r, kind, names[1..])
    ensures Assigned(p, s, r, kind, names)
  {
    var s1 := SetId(s, kind, names[0], id).(taken := s.taken + {id});
    forall k, n ensures AssignedAt(p, s, r, kind, names, k, n) {
      assert AssignedAt(p, s1, r, kind, names[1..], k, n);
      assert n in names <==> n == names[0] || n in names[1..];
    }
  }

  /** What `computeIdsForSymbols` does to one symbol. */
  ghost predicate ComputedAt(p: Params, s: Symbols, r: Symbols, kind: SymbolType, k: SymbolType, n: string)
    requires Complete(s) && Complete(r)
  {
    && (n in r.tables[k] <==> n in s.tables[k])
    && (Has(p, s, k, n) ==> r.tables[k][n] == s.tables[k][n])
    && (k != kind && n in s.tables[k] ==> r.tables[k][n] == s.tables[k][n])
    && (Has(p, r, k, n) && !Has(p, s, k, n) ==> HasPrefix(r.tables[k][n], p.prefix(k)))
    && (k == kind && n in s.tables[k] && !Has(p, r, k, n) ==> AllTaken(r.taken, p.prefix(k)))
  }

  ghost predicate Computed(p: Params, s: Symbols, r: Symbols, kind: SymbolType)
  {
    Complete(s) && Complete(r) && forall k, n :: ComputedAt(p, s, r, kind, k, n)
  }

  lemma ComputeWorks(p: Params, s: Symbols, kind: SymbolType)
    requires InvalidIsOutside(p) && Unique(p, s)
    ensures var r := Compute(p, s, kind); Unique(p, r) && Computed(p, s, r, kind) && s.taken <= r.taken
  {
    var r, names := Compute(p, s, kind), Unassigned(p, s.tables[kind]);
    AssignWorks(p, s, kind, names);
    AssignGrows(p, s, kind, names);
    forall k, n ensures ComputedAt(p, s, r, kind, k, n) {
      assert AssignedAt(p, s, r, kind, names, k, n);
    }
  }

  lemma {:induction false} AssignGrows(p: Params, s: Symbols, kind: SymbolType, names: seq<string>)
    requires Complete(s)
    ensures var r := Assign(p, s, kind, names);
      s.taken <= r.taken && forall k :: k in s.tables && k != kind ==> r.tables[k] == s.tables[k]
    decreases |names|
  {
    if names != [] {
      var out := Probe(s.taken, p.prefix(kind), p.hash(names[0]), 0);
      if out.Some? {
        AssignGrows(p, SetId(s, kind, names[0], out.value).(taken := s.taken + {out.value}), kind, names[1..]);
      }
    }
  }

  /** The whole table, symbol by symbol: names are those that were added; an explicit id that was
      granted is kept; any other id has its resource type in the top byte and a zero byte below it; a
      symbol has none only if all ids of its type are taken. */
  ghost predicate FinalAt(p: Params, s: Symbols, r: Symbols, k: SymbolType, n: string)
    requires Complete(s) && Complete(r)
  {
    && (n in r.tables[k] <==> n in s.tables[k])
    && (Has(p, s, k, n) ==> r.tables[k][n] == s.tables[k][n])
    && (Has(p, r, k, n) && !Has(p, s, k, n) ==> HasPrefix(r.tables[k][n], p.prefix(k)))
    && (n in s.tables[k] && !Has(p, r, k, n) ==> AllTaken(r.taken, p.prefix(k)))
  }

  /** After the kinds `done` have been computed. */
  ghost predicate PhaseAt(p: Params, s: Symbols, r: Symbols, done: set<SymbolType>, k: SymbolType, n: string)
    requires Complete(s) && Complete(r)
  {
    if k in done then FinalAt(p, s, r, k, n) else r.tables[k] == s.tables[k]
  }

  ghost predicate Phase(p: Params, s: Symbols, r: Symbols, done: set<SymbolType>)
  {
    Complete(s) && Unique(p, r) && forall k, n :: PhaseAt(p, s, r, done, k, n)
  }

  lemma NextPhase(p: Params, s: Symbols, r: Symbols, done: set<SymbolType>, kind: SymbolType)
    requires InvalidIsOutside(p) && Phase(p, s, r, done) && kind !in done
    ensures Phase(p, s, Compute(p, r, kind), done + {kind})
  {
    var q := Compute(p, r, kind);
    ComputeWorks(p, r, kind);
    AssignGrows(p, r, kind, Unassigned(p, r.tables[kind]));
    forall k, n ensures PhaseAt(p, s, q, done + {kind}, k, n) {
      assert PhaseAt(p, s, r, done, k, n) && ComputedAt(p, r, q, kind, k, n);
    }
  }

  /** All ids are different, whatever the calls; explicit ids are kept, the others have the format of
      their resource type, and a symbol goes without only if its type is exhausted. */
  lemma IdsAreUnique(p: Params, rs: seq<Request>)
    requires InvalidIsOutside(p)
    ensures Unique(p, Create(p, rs))
    ensures forall k, n :: FinalAt(p, AddAll(p, rs), Create(p, rs), k, n)
  {
    var s := AddAll(p, rs);
    AddAllUnique(p, rs);
    FirstPhases(p, s);
    var r := Compute(p, Compute(p, Compute(p, s, ACTION), TABLE), ACTION_PROFILE);
    LastPhases(p, s, r);
    forall k, n ensures FinalAt(p, s, Create(p, rs), k, n) {
      AllKinds(k);
      assert PhaseAt(p, s, Create(p, rs), KINDS, k, n);
    }
  }

  const KINDS := {ACTION, TABLE, ACTION_PROFILE, COUNTER, METER}

  lemma FirstPhases(p: Params, s: Symbols)
    requires InvalidIsOutside(p) && Unique(p, s)
    ensures Phase(p, s, Compute(p, Compute(p, Compute(p, s, ACTION), TABLE), ACTION_PROFILE),
      {ACTION, TABLE, ACTION_PROFILE})
  {
    var s1 := Compute(p, s, ACTION);
    NextPhase(p, s, s, {}, ACTION);
    assert {} + {ACTION} == {ACTION};
    var s2 := Compute(p, s1, TABLE);
    NextPhase(p, s, s1, {ACTION}, TABLE);
    assert {ACTION} + {TABLE} == {ACTION, TABLE};
    NextPhase(p, s, s2, {ACTION, TABLE}, ACTION_PROFILE);
    assert {ACTION, TABLE} + {ACTION_PROFILE} == {ACTION, TABLE, ACTION_PROFILE};
  }

  lemma LastPhases(p: Params, s: Symbols, r: Symbols)
    requires InvalidIsOutside(p) && Phase(p, s, r, {ACTION, TABLE, ACTION_PROFILE})
    ensures Phase(p, s, Compute(p, Compute(p, r, COUNTER), METER), KINDS)
  {
    var done := {ACTION, TABLE, ACTION_PROFILE};
    NextPhase(p, s, r, done, COUNTER);
    NextPhase(p, s, Compute(p, r, COUNTER), done + {COUNTER}, METER);
    assert done + {COUNTER} + {METER} == KINDS;
  }

  lemma AllKinds(k: SymbolType)
    ensures k in KINDS
  {
    match k
    case ACTION =>
    case ACTION_PROFILE =>
    case COUNTER =>
    case METER =>
    case TABLE =>
  }

  /** Without conflicting requests, every explicit id is the final one. */
  lemma ExplicitIdsAreKept(p: Params, rs: seq<Request>, r: Request)
    requires InvalidIsOutside(p) && Compatible(rs) && r in rs && r.id.Some? && r.id.value != p.invalid
    ensures r.name in Create(p, rs).tables[r.kind] && Create(p, rs).tables[r.kind][r.name] == r.id.value
  {
    AddAllHolds(p, rs);
    IdsAreUnique(p, rs);
    assert HoldsAt(p, AddAll(p, rs).tables[r.kind], rs, r.kind, r.name);
    assert FinalAt(p, AddAll(p, rs), Create(p, rs), r.kind, r.name);
  }

  /** Where two symbols ask for one id, the call that comes first decides: the tables differ, whatever
      other calls there are and in whatever order. */
  lemma ConflictsDependOnOrder(p: Params, a: Request, b: Request, rs: seq<Request>, qs: seq<Request>)
    requires InvalidIsOutside(p) && (a.kind, a.name) != (b.kind, b.name)
    requires a.id.Some? && a.id == b.id && a.id.value != p.invalid
    ensures Create(p, [a] + rs) != Create(p, [b] + qs)
  {
    FirstWins(p, a, rs);
    FirstWins(p, b, qs);
    IdsAreUnique(p, [a] + rs);
    var r := Create(p, [a] + rs);
    if r == Create(p, [b] + qs) { assert Has(p, r, a.kind, a.name) && Has(p, r, b.kind, b.name); }
  }

  lemma FirstWins(p: Params, a: Request, rs: seq<Request>)
    requires InvalidIsOutside(p) && a.id.Some? && a.id.value != p.invalid
    ensures var t := Create(p, [a] + rs).tables;
      a.name in t[a.kind] && t[a.kind][a.name] == a.id.value
  {
    var s, r := AddAll(p, [a] + rs), Create(p, [a] + rs);
    FirstAdded(p, a, rs);
    IdsAreUnique(p, [a] + rs);
    assert FinalAt(p, s, r, a.kind, a.name);
  }

  lemma {:induction false} FirstAdded(p: Params, a: Request, rs: seq<Request>)
    requires a.id.Some? && a.id.value != p.invalid
    ensures var s := AddAll(p, [a] + rs);
      Has(p, s, a.kind, a.name) && s.tables[a.kind][a.name] == a.id.value
  {
    var all := [a] + rs;
    if rs == [] {
      EmptyIsComplete();
      EmptyTables(a.kind);
      assert all == [a] && all[..0] == [] && AddAll(p, all) == Add(p, EMPTY, a);
    } else {
      assert all[..|all| - 1] == [a] + rs[..|rs| - 1];
      FirstAdded(p, a, rs[..|rs| - 1]);
      AddAt(p, AddAll(p, [a] + rs[..|rs| - 1]), rs[|rs| - 1], a.kind, a.name);
    }
  }
}
