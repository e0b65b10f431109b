/** Which id every symbol gets, told from the finished tables. */
module IdOrder {
  import opened Options
  import opened SymbolIds

  // ---------- who comes first ----------

  /** `a` is a proper beginning of `b`, or at the first place where they differ its character is smaller. */
  ghost predicate Smaller(a: string, b: string)
  {
    exists i :: DiffersAt(a, b, i)
  }

  ghost predicate DiffersAt(a: string, b: string, i: nat)
  {
    i <= |a| && i < |b| && a[..i] == b[..i] && (i == |a| || a[i] < b[i])
  }

  lemma {:induction false} LessIsSmaller(a: string, b: string)
    ensures Less(a, b) <==> Smaller(a, b)
    decreases |a|
  {
    if a != [] && b != [] && Smaller(a, b) {
      var i: nat :| DiffersAt(a, b, i);
      if i > 0 { assert a[0] == a[..i][0] == b[..i][0]; }
    }
    if b != [] && a == [] {
      assert DiffersAt(a, b, 0);
    } else if b != [] && a[0] < b[0] {
      assert DiffersAt(a, b, 0);
    } else if b != [] && a[0] == b[0] {
      LessIsSmaller(a[1..], b[1..]);
      if Less(a, b) {
        var i: nat :| DiffersAt(a[1..], b[1..], i);
        assert a[..i + 1] == [a[0]] + a[1..][..i] && b[..i + 1] == [b[0]] + b[1..][..i];
        assert DiffersAt(a, b, i + 1);
      }
      if Smaller(a, b) {
        var i: nat :| DiffersAt(a, b, i);
        assert i > 0;
        assert a[1..][..i - 1] == a[..i][1..] && b[1..][..i - 1] == b[..i][1..];
        assert DiffersAt(a[1..], b[1..], i - 1);
      }
    }
  }

  /** The order in which the kinds of symbols get their ids. */
  function Turn(k: SymbolType): nat
  {
    match k
    case ACTION => 0
    case TABLE => 1
    case ACTION_PROFILE => 2
    case COUNTER => 3
    case METER => 4
  }

  /** The symbol `m` of kind `l` has its id before `n` of kind `k` gets one: it has an explicit id, or its
      kind comes earlier, or its name is smaller. `s` is the table when all symbols are added. */
  ghost predicate Ahead(p: Params, s: Symbols, l: SymbolType, m: string, k: SymbolType, n: string)
    requires Complete(s)
  {
    Has(p, s, l, m) || Turn(l) < Turn(k) || (l == k && Smaller(m, n))
  }

  /** The ids that the symbols ahead have in the end. */
  ghost function AheadIds(p: Params, s: Symbols, r: Symbols, k: SymbolType, n: string): set<U32>
    requires Complete(s) && Complete(r)
  {
    set l: SymbolType, m | m in r.tables[l] && Has(p, r, l, m) && Ahead(p, s, l, m, k, n) :: r.tables[l][m]
  }

  /** A symbol without an explicit id has the first id of its type, in cyclic order from the hash of its
      own name, that no symbol ahead of it has; or it has none, and all of them are gone. */
  ghost predicate Placed(p: Params, s: Symbols, r: Symbols, k: SymbolType, n: string)
    requires Complete(s) && Complete(r)
  {
    n in s.tables[k] && !Has(p, s, k, n) ==>
      if Has(p, r, k, n) then
        exists j :: 0 <= j < 0x1_0000 && FirstFree(AheadIds(p, s, r, k, n), p.prefix(k), p.hash(n), j, r.tables[k][n])
      else AllTaken(AheadIds(p, s, r, k, n), p.prefix(k))
  }

  // ---------- one kind ----------

  ghost function LowerIds(p: Params, r: Symbols, kind: SymbolType, names: seq<string>, n: string): set<U32>
    requires Complete(r)
  {
    set m | m in names && Has(p, r, kind, m) && Less(m, n) :: r.tables[kind][m]
  }

  ghost predicate AssignPlaces(p: Params, taken: set<U32>, r: Symbols, kind: SymbolType, n: string)
    requires Complete(r)
  {
    if Has(p, r, kind, n) then
      exists j :: 0 <= j < 0x1_0000 && FirstFree(taken, p.prefix(kind), p.hash(n), j, r.tables[kind][n])
    else AllTaken(taken, p.prefix(kind))
  }

  lemma {:induction false} AssignsInOrder(p: Params, s: Symbols, kind: SymbolType, names: seq<string>, n: string)
    requires InvalidIsOutside(p) && Unique(p, s) && Sorted(names) && n in names
    requires forall m :: m in names ==> Needs(p, s.tables[kind], m)
    ensures var r := Assign(p, s, kind, names);
      Complete(r) && AssignPlaces(p, s.taken + LowerIds(p, r, kind, names, n), r, kind, n)
    decreases |names|
  {
    var first, r := names[0], Assign(p, s, kind, names);
    AssignWorks(p, s, kind, names);
    ProbeIsComplete(s.taken, p.prefix(kind), p.hash(first), 0);
    var out := Probe(s.taken, p.prefix(kind), p.hash(first), 0);
    if out.None? {
      NoneLeft(p, s, kind, names, n);
    } else if n == first {
      FirstPlace(p, s, kind, names);
    } else {
      SetIdUnique(p, s, kind, first, out.value);
      RestNeeds(p, s, kind, names, out.value);
      AssignsInOrder(p, SetId(s, kind, first, out.value).(taken := s.taken + {out.value}), kind, names[1..], n);
      FirstKeeps(p, s, kind, names, out.value);
      FirstIsLower(p, s.taken, r, kind, names, n);
    }
  }

  lemma FirstIsLower(p: Params, taken: set<U32>, r: Symbols, kind: SymbolType, names: seq<string>, n: string)
    requires Complete(r) && Sorted(names) && names != [] && n in names && n != names[0] && Has(p, r, kind, names[0])
    ensures taken + LowerIds(p, r, kind, names, n)
         == taken + {r.tables[kind][names[0]]} + LowerIds(p, r, kind, names[1..], n)
  {
    LowerSplits(p, r, kind, names, n);
  }

  lemma NoneLeft(p: Params, s: Symbols, kind: SymbolType, names: seq<string>, n: string)
    requires Complete(s) && n in names && forall m :: m in names ==> Needs(p, s.tables[kind], m)
    requires Probe(s.taken, p.prefix(kind), p.hash(names[0]), 0).None? && AllTaken(s.taken, p.prefix(kind))
    ensures var r := Assign(p, s, kind, names);
      AssignPlaces(p, s.taken + LowerIds(p, r, kind, names, n), r, kind, n)
  {
    assert Needs(p, s.tables[kind], n);
  }

  lemma RestNeeds(p: Params, s: Symbols, kind: SymbolType, names: seq<string>, id: U32)
    requires Complete(s) && Sorted(names) && names != [] && forall m :: m in names ==> Needs(p, s.tables[kind], m)
    ensures forall m :: m in names[1..] ==> Needs(p, SetId(s, kind, names[0], id).tables[kind], m)
    ensures Sorted(names[1..])
  {
    forall m | m in names[1..] ensures Needs(p, SetId(s, kind, names[0], id).tables[kind], m) {
      LessTotal(names[0], m);
      assert m in names;
    }
  }

  /** The first name keeps the id it gets. */
  lemma FirstKeeps(p: Params, s: Symbols, kind: SymbolType, names: seq<string>, id: U32)
    requires InvalidIsOutside(p) && Unique(p, s) && Sorted(names) && names != []
    requires forall m :: m in names ==> Needs(p, s.tables[kind], m)
    requires Probe(s.taken, p.prefix(kind), p.hash(names[0]), 0) == Some(id) && id !in s.taken
      && HasPrefix(id, p.prefix(kind))
    ensures var r := Assign(p, s, kind, names);
      Complete(r) && Has(p, r, kind, names[0]) && r.tables[kind][names[0]] == id
  {
    var s1 := SetId(s, kind, names[0], id).(taken := s.taken + {id});
    assert names[0] in names;
    SetIdUnique(p, s, kind, names[0], id);
    RestNeeds(p, s, kind, names, id);
    AssignWorks(p, s1, kind, names[1..]);
    assert AssignedAt(p, s1, Assign(p, s1, kind, names[1..]), kind, names[1..], kind, names[0]);
  }

  lemma FirstPlace(p: Params, s: Symbols, kind: SymbolType, names: seq<string>)
    requires InvalidIsOutside(p) && Unique(p, s) && Sorted(names) && names != []
    requires forall m :: m in names ==> Needs(p, s.tables[kind], m)
    requires Probe(s.taken, p.prefix(kind), p.hash(names[0]), 0).Some?
    ensures var r := Assign(p, s, kind, names);
      Complete(r) && AssignPlaces(p, s.taken + LowerIds(p, r, kind, names, names[0]), r, kind, names[0])
  {
    ProbeIsComplete(s.taken, p.prefix(kind), p.hash(names[0]), 0);
    var id := Probe(s.taken, p.prefix(kind), p.hash(names[0]), 0).value;
    FirstKeeps(p, s, kind, names, id);
    FirstIsLeast(p, Assign(p, s, kind, names), kind, names);
    assert s.taken + {} == s.taken;
  }

  lemma FirstIsLeast(p: Params, r: Symbols, kind: SymbolType, names: seq<string>)
    requires Complete(r) && Sorted(names) && names != []
    ensures LowerIds(p, r, kind, names, names[0]) == {}
  {
    forall m | m in names ensures !Less(m, names[0]) { LessTotal(m, names[0]); }
  }

  lemma LowerSplits(p: Params, r: Symbols, kind: SymbolType, names: seq<string>, n: string)
    requires Complete(r) && Sorted(names) && names != [] && n in names[1..] && Has(p, r, kind, names[0])
    ensures LowerIds(p, r, kind, names, n) == {r.tables[kind][names[0]]} + LowerIds(p, r, kind, names[1..], n)
  {
    assert names == [names[0]] + names[1..];
    assert forall m :: m in names <==> m == names[0] || m in names[1..];
    assert Less(names[0], n);
  }

  /** The ids of the smaller names of a kind that had none in `s`. */
  ghost function SmallerIds(p: Params, s: Symbols, r: Symbols, kind: SymbolType, n: string): set<U32>
    requires Complete(s) && Complete(r)
  {
    set m | m in r.tables[kind] && Needs(p, s.tables[kind], m) && Has(p, r, kind, m) && Smaller(m, n)
      :: r.tables[kind][m]
  }

  /** What a name that had no id in `s` has in `r`, when the ids of its kind have been computed. */
  ghost predicate Computes(p: Params, s: Symbols, r: Symbols, kind: SymbolType, n: string)
    requires Complete(s) && Complete(r)
  {
    Needs(p, s.tables[kind], n) ==> AssignPlaces(p, s.taken + SmallerIds(p, s, r, kind, n), r, kind, n)
  }

  lemma ComputesInOrder(p: Params, s: Symbols, kind: SymbolType)
    requires InvalidIsOutside(p) && Unique(p, s)
    ensures Unique(p, Compute(p, s, kind)) && forall n :: Computes(p, s, Compute(p, s, kind), kind, n)
  {
    var names, r := Unassigned(p, s.tables[kind]), Compute(p, s, kind);
    ComputeWorks(p, s, kind);
    forall n ensures Computes(p, s, r, kind, n) {
      if Needs(p, s.tables[kind], n) {
        AssignsInOrder(p, s, kind, names, n);
        forall m ensures m in names && Less(m, n) <==> Needs(p, s.tables[kind], m) && Smaller(m, n) {
          LessIsSmaller(m, n);
        }
        assert LowerIds(p, r, kind, names, n) == SmallerIds(p, s, r, kind, n);
      }
    }
  }

  // ---------- kind after kind ----------

  /** Every id that is taken belongs to some symbol. */
  ghost predicate Held(p: Params, s: Symbols)
    requires Complete(s)
  {
    forall id :: id in s.taken ==> id == p.invalid || exists l, m :: Has(p, s, l, m) && s.tables[l][m] == id
  }

  lemma HeldThen(p: Params, s: Symbols, kind: SymbolType, n: string, id: U32)
    requires Complete(s) && Held(p, s) && !Has(p, s, kind, n)
    ensures Held(p, SetId(s, kind, n, id).(taken := s.taken + {id}))
  {
    var r := SetId(s, kind, n, id).(taken := s.taken + {id});
    forall x | x in r.taken && x != p.invalid ensures exists l, m :: Has(p, r, l, m) && r.tables[l][m] == x {
      if x == id {
        assert Has(p, r, kind, n) && r.tables[kind][n] == id;
      } else {
        var l, m :| Has(p, s, l, m) && s.tables[l][m] == x;
        assert Has(p, r, l, m) && r.tables[l][m] == x;
      }
    }
  }

  lemma {:induction false} AddAllHeld(p: Params, rs: seq<Request>)
    ensures Held(p, AddAll(p, rs))
  {
    if rs != [] {
      var s, r := AddAll(p, rs[..|rs| - 1]), rs[|rs| - 1];
      AddAllHeld(p, rs[..|rs| - 1]);
      if r.name !in s.tables[r.kind] {
        if r.id.Some? && r.id.value !in s.taken {
          HeldThen(p, s, r.kind, r.name, r.id.value);
        } else {
          var t := SetId(s, r.kind, r.name, p.invalid);
          forall x | x in t.taken && x != p.invalid ensures exists l, m :: Has(p, t, l, m) && t.tables[l][m] == x {
            var l, m :| Has(p, s, l, m) && s.tables[l][m] == x;
            assert Has(p, t, l, m) && t.tables[l][m] == x;
          }
        }
      }
    }
  }

  lemma {:induction false} AssignHeld(p: Params, s: Symbols, kind: SymbolType, names: seq<string>)
    requires Complete(s) && Held(p, s) && Sorted(names) && forall m :: m in names ==> Needs(p, s.tables[kind], m)
    ensures Held(p, Assign(p, s, kind, names))
    decreases |names|
  {
    if names != [] {
      var out := Probe(s.taken, p.prefix(kind), p.hash(names[0]), 0);
      if out.Some? {
        var s1 := SetId(s, kind, names[0], out.value).(taken := s.taken + {out.value});
        assert names[0] in names;
        HeldThen(p, s, kind, names[0], out.value);
        RestNeeds(p, s, kind, names, out.value);
        AssignHeld(p, s1, kind, names[1..]);
      }
    }
  }

  /** The kinds `done` have their ids, and each of their symbols has the one it should. */
  ghost predicate PlacedPhase(p: Params, s: Symbols, r: Symbols, done: set<SymbolType>)
  {
    Phase(p, s, r, done) && Held(p, r) && forall k, n :: k in done ==> Placed(p, s, r, k, n)
  }

  lemma NextPlaced(p: Params, s: Symbols, r: Symbols, done: set<SymbolType>, kind: SymbolType)
    requires InvalidIsOutside(p) && PlacedPhase(p, s, r, done)
    requires forall k :: k in done <==> Turn(k) < Turn(kind)
    ensures PlacedPhase(p, s, Compute(p, r, kind), done + {kind})
  {
    var q := Compute(p, r, kind);
    NextPhase(p, s, r, done, kind);
    ComputeWorks(p, r, kind);
    AssignHeld(p, r, kind, Unassigned(p, r.tables[kind]));
    forall k, n | k in done + {kind} ensures Placed(p, s, q, k, n) {
      if k == kind {
        PlacedNow(p, s, r, done, kind, n);
      } else {
        assert Placed(p, s, r, k, n);
        PlacedStill(p, s, r, done, kind, k, n);
      }
    }
  }

  lemma PlacedStill(p: Params, s: Symbols, r: Symbols, done: set<SymbolType>, kind: SymbolType, k: SymbolType,
                    n: string)
    requires Phase(p, s, r, done) && Computed(p, r, Compute(p, r, kind), kind)
    requires Turn(k) < Turn(kind) && Placed(p, s, r, k, n)
    ensures Placed(p, s, Compute(p, r, kind), k, n)
  {
    var q := Compute(p, r, kind);
    forall l, m | Ahead(p, s, l, m, k, n) || (l, m) == (k, n)
      ensures (Has(p, q, l, m) <==> Has(p, r, l, m)) && (Has(p, r, l, m) ==> q.tables[l][m] == r.tables[l][m])
    {
      assert ComputedAt(p, r, q, kind, l, m) && PhaseAt(p, s, r, done, l, m);
    }
    assert AheadIds(p, s, q, k, n) == AheadIds(p, s, r, k, n);
  }

  lemma PlacedNow(p: Params, s: Symbols, r: Symbols, done: set<SymbolType>, kind: SymbolType, n: string)
    requires InvalidIsOutside(p) && Phase(p, s, r, done) && Held(p, r)
    requires forall k :: k in done <==> Turn(k) < Turn(kind)
    ensures Placed(p, s, Compute(p, r, kind), kind, n)
  {
    var names := Unassigned(p, r.tables[kind]);
    var q := Compute(p, r, kind);
    assert PhaseAt(p, s, r, done, kind, n);
    if n in s.tables[kind] && !Has(p, s, kind, n) {
      assert n in names;
      AssignsInOrder(p, r, kind, names, n);
      var taken, ahead := r.taken + LowerIds(p, q, kind, names, n), AheadIds(p, s, q, kind, n);
      forall id: U32 | HasPrefix(id, p.prefix(kind)) ensures id in taken <==> id in ahead {
        TakenIsAhead(p, s, r, done, kind, n, id);
      }
      if Has(p, q, kind, n) {
        var j :| 0 <= j < 0x1_0000 && FirstFree(taken, p.prefix(kind), p.hash(n), j, q.tables[kind][n]);
        SameFirstFree(taken, ahead, p.prefix(kind), p.hash(n), j, q.tables[kind][n]);
      }
    }
  }

  lemma SameFirstFree(taken: set<U32>, ahead: set<U32>, prefix: Byte, hash: U32, j: nat, id: U32)
    requires FirstFree(taken, prefix, hash, j, id)
    requires forall x: U32 :: HasPrefix(x, prefix) ==> (x in taken <==> x in ahead)
    ensures FirstFree(ahead, prefix, hash, j, id)
  {
    forall i | 0 <= i <= j ensures HasPrefix(ProbeId(prefix, hash, i), prefix) { ProbeIdIs(prefix, hash, i); }
  }

  lemma TakenIsAhead(p: Params, s: Symbols, r: Symbols, done: set<SymbolType>, kind: SymbolType, n: string, id: U32)
    requires InvalidIsOutside(p) && Phase(p, s, r, done) && Held(p, r) && HasPrefix(id, p.prefix(kind))
    requires forall k :: k in done <==> Turn(k) < Turn(kind)
    ensures var q := Compute(p, r, kind);
      id in r.taken + LowerIds(p, q, kind, Unassigned(p, r.tables[kind]), n) <==> id in AheadIds(p, s, q, kind, n)
  {
    var q, names := Compute(p, r, kind), Unassigned(p, r.tables[kind]);
    ComputeWorks(p, r, kind);
    if id in r.taken {
      var l, m :| Has(p, r, l, m) && r.tables[l][m] == id;
      assert ComputedAt(p, r, q, kind, l, m) && PhaseAt(p, s, r, done, l, m);
      assert Ahead(p, s, l, m, kind, n);
    }
    if id in LowerIds(p, q, kind, names, n) {
      var m :| m in names && Has(p, q, kind, m) && Less(m, n) && q.tables[kind][m] == id;
      LessIsSmaller(m, n);
      assert Ahead(p, s, kind, m, kind, n);
    }
    if id in AheadIds(p, s, q, kind, n) { AheadIsTaken(p, s, r, done, kind, n, id); }
  }

  lemma AheadIsTaken(p: Params, s: Symbols, r: Symbols, done: set<SymbolType>, kind: SymbolType, n: string, id: U32)
    requires InvalidIsOutside(p) && Phase(p, s, r, done) && Computed(p, r, Compute(p, r, kind), kind)
    requires forall k :: k in done <==> Turn(k) < Turn(kind)
    requires id in AheadIds(p, s, Compute(p, r, kind), kind, n)
    ensures id in r.taken + LowerIds(p, Compute(p, r, kind), kind, Unassigned(p, r.tables[kind]), n)
  {
    var q := Compute(p, r, kind);
    var l, m :| Has(p, q, l, m) && Ahead(p, s, l, m, kind, n) && q.tables[l][m] == id;
    assert ComputedAt(p, r, q, kind, l, m) && PhaseAt(p, s, r, done, l, m);
    LessIsSmaller(m, n);
  }

  /** Whatever the calls: every symbol without an explicit id has the first id of its type, in cyclic
      order from the hash of its own name, that is neither an explicit id nor the id of a kind computed
      earlier nor that of a smaller name of its kind; it has none only if all of them are such ids. */
  lemma IdsAreFirstFree(p: Params, rs: seq<Request>)
    requires InvalidIsOutside(p)
    ensures forall k, n :: Placed(p, AddAll(p, rs), Create(p, rs), k, n)
  {
    var s := AddAll(p, rs);
    AddAllUnique(p, rs);
    AddAllHeld(p, rs);
    var r := Compute(p, Compute(p, Compute(p, s, ACTION), TABLE), ACTION_PROFILE);
    FirstPlaced(p, s);
    LastPlaced(p, s, r);
    forall k, n ensures Placed(p, s, Create(p, rs), k, n) { AllKinds(k); }
  }

  lemma FirstPlaced(p: Params, s: Symbols)
    requires InvalidIsOutside(p) && Unique(p, s) && Held(p, s)
    ensures PlacedPhase(p, s, Compute(p, Compute(p, Compute(p, s, ACTION), TABLE), ACTION_PROFILE),
      {ACTION, TABLE, ACTION_PROFILE})
  {
    var s1 := Compute(p, s, ACTION);
    NextPlaced(p, s, s, {}, ACTION);
    assert {} + {ACTION} == {ACTION};
    var s2 := Compute(p, s1, TABLE);
    NextPlaced(p, s, s1, {ACTION}, TABLE);
    assert {ACTION} + {TABLE} == {ACTION, TABLE};
    NextPlaced(p, s, s2, {ACTION, TABLE}, ACTION_PROFILE);
    assert {ACTION, TABLE} + {ACTION_PROFILE} == {ACTION, TABLE, ACTION_PROFILE};
  }

  lemma LastPlaced(p: Params, s: Symbols, r: Symbols)
    requires InvalidIsOutside(p) && PlacedPhase(p, s, r, {ACTION, TABLE, ACTION_PROFILE})
    ensures PlacedPhase(p, s, Compute(p, Compute(p, r, COUNTER), METER), KINDS)
  {
    var done := {ACTION, TABLE, ACTION_PROFILE};
    NextPlaced(p, s, r, done, COUNTER);
    NextPlaced(p, s, Compute(p, r, COUNTER), done + {COUNTER}, METER);
    assert done + {COUNTER} + {METER} == KINDS;
  }

  // ---------- which ids are explicit ----------

  /** The `i`-th call is the first for its symbol; the others are ignored. */
  ghost predicate IsFirst(rs: seq<Request>, i: nat)
    requires i < |rs|
  {
    forall j :: 0 <= j < i ==> rs[j].kind != rs[i].kind || rs[j].name != rs[i].name
  }

  /** One of the first `n` calls is the first for its symbol and asks for `id`. */
  ghost predicate ClaimedBefore(rs: seq<Request>, n: nat, id: U32)
    requires n <= |rs|
  {
    exists j :: 0 <= j < n && IsFirst(rs, j) && rs[j].id == Some(id)
  }

  /** What the `i`-th call brings its symbol, if it is the first for it: the id that it asks for, unless an
      earlier such call has asked for that. */
  ghost function Granted(p: Params, rs: seq<Request>, i: nat): U32
    requires i < |rs|
  {
    if rs[i].id.Some? && !ClaimedBefore(rs, i, rs[i].id.value) then rs[i].id.value else p.invalid
  }

  /** The calls that are reported. */
  ghost function Refused(rs: seq<Request>, n: nat): nat
    requires n <= |rs|
  {
    if n == 0 then 0
    else
      var r := rs[n - 1];
      Refused(rs, n - 1) + if IsFirst(rs, n - 1) && r.id.Some? && ClaimedBefore(rs, n - 1, r.id.value) then 1 else 0
  }

  ghost predicate TakenAre(rs: seq<Request>, n: nat, s: Symbols)
    requires n <= |rs|
  {
    forall id :: id in s.taken <==> ClaimedBefore(rs, n, id)
  }

  ghost predicate NamesAre(rs: seq<Request>, n: nat, s: Symbols)
    requires n <= |rs| && Complete(s)
  {
    forall k, m :: m in s.tables[k] <==> exists j :: 0 <= j < n && rs[j].kind == k && rs[j].name == m
  }

  ghost predicate GrantsAre(p: Params, rs: seq<Request>, n: nat, s: Symbols)
    requires n <= |rs| && Complete(s)
  {
    forall j :: 0 <= j < n && IsFirst(rs, j) ==>
      rs[j].name in s.tables[rs[j].kind] && s.tables[rs[j].kind][rs[j].name] == Granted(p, rs, j)
  }

  /** The table after the first `n` calls. */
  ghost predicate Records(p: Params, rs: seq<Request>, n: nat, s: Symbols)
    requires n <= |rs|
  {
    && Complete(s) && s.errors == Refused(rs, n)
    && TakenAre(rs, n, s) && NamesAre(rs, n, s) && GrantsAre(p, rs, n, s)
  }

  lemma NextTaken(p: Params, rs: seq<Request>, n: nat, s: Symbols)
    requires n < |rs| && Complete(s) && TakenAre(rs, n, s)
    requires IsFirst(rs, n) <==> rs[n].name !in s.tables[rs[n].kind]
    ensures TakenAre(rs, n + 1, Add(p, s, rs[n]))
  {
    var s' := Add(p, s, rs[n]);
    forall id ensures id in s'.taken <==> ClaimedBefore(rs, n + 1, id) {
      if ClaimedBefore(rs, n, id) {
        var j :| 0 <= j < n && IsFirst(rs, j) && rs[j].id == Some(id);
        assert j < n + 1;
      }
      if IsFirst(rs, n) && rs[n].id == Some(id) { assert n < n + 1; }
    }
  }

  lemma NextNames(p: Params, rs: seq<Request>, n: nat, s: Symbols)
    requires n < |rs| && Complete(s) && NamesAre(rs, n, s)
    ensures NamesAre(rs, n + 1, Add(p, s, rs[n]))
  {
    var s' := Add(p, s, rs[n]);
    forall k, m ensures m in s'.tables[k] <==> exists j :: 0 <= j < n + 1 && rs[j].kind == k && rs[j].name == m {
      assert m in s'.tables[k] <==> m in s.tables[k] || (rs[n].kind == k && rs[n].name == m);
    }
  }

  lemma NextGrants(p: Params, rs: seq<Request>, n: nat, s: Symbols)
    requires n < |rs| && Complete(s) && GrantsAre(p, rs, n, s) && TakenAre(rs, n, s)
    requires IsFirst(rs, n) <==> rs[n].name !in s.tables[rs[n].kind]
    ensures GrantsAre(p, rs, n + 1, Add(p, s, rs[n]))
  {
    var r, s' := rs[n], Add(p, s, rs[n]);
    forall j | 0 <= j < n + 1 && IsFirst(rs, j)
      ensures rs[j].name in s'.tables[rs[j].kind] && s'.tables[rs[j].kind][rs[j].name] == Granted(p, rs, j)
    {
      if j == n && r.id.Some? { assert r.id.value in s.taken <==> ClaimedBefore(rs, n, r.id.value); }
    }
  }

  lemma AddRecords(p: Params, rs: seq<Request>, n: nat, s: Symbols)
    requires n < |rs| && Records(p, rs, n, s)
    ensures Records(p, rs, n + 1, Add(p, s, rs[n]))
  {
    assert IsFirst(rs, n) <==> rs[n].name !in s.tables[rs[n].kind];
    NextTaken(p, rs, n, s);
    NextNames(p, rs, n, s);
    NextGrants(p, rs, n, s);
  }

  lemma {:induction false} FirstCalls(p: Params, rs: seq<Request>, n: nat)
    requires n <= |rs|
    ensures Records(p, rs, n, AddAll(p, rs[..n]))
    decreases n
  {
    if n == 0 {
      EmptyIsComplete();
      forall k: SymbolType ensures EMPTY.tables[k] == map[] { EmptyTables(k); }
    } else {
      FirstCalls(p, rs, n - 1);
      assert rs[..n][..n - 1] == rs[..n - 1];
      AddRecords(p, rs, n - 1, AddAll(p, rs[..n - 1]));
    }
  }

  /** When all calls are made, conflicting or not, an id is explicit if and only if the first call for some
      symbol asks for it; it then belongs to the first symbol to do so, and every other one is reported. */
  lemma AddedAre(p: Params, rs: seq<Request>)
    ensures Records(p, rs, |rs|, AddAll(p, rs))
  {
    FirstCalls(p, rs, |rs|);
    assert rs[..|rs|] == rs;
  }

  // ---------- what is reported ----------

  /** Whether some symbol of a kind goes without an id. */
  ghost function Short(p: Params, t: Table): nat
  {
    if exists n :: Needs(p, t, n) then 1 else 0
  }

  lemma {:induction false} AssignReports(p: Params, s: Symbols, kind: SymbolType, names: seq<string>)
    requires InvalidIsOutside(p) && Unique(p, s) && Sorted(names)
    requires forall n :: n in names ==> Needs(p, s.tables[kind], n)
    ensures var r := Assign(p, s, kind, names);
      Complete(r) && r.errors == s.errors + if exists n :: n in names && !Has(p, r, kind, n) then 1 else 0
    decreases |names|
  {
    if names != [] {
      var first, r := names[0], Assign(p, s, kind, names);
      ProbeIsComplete(s.taken, p.prefix(kind), p.hash(first), 0);
      var out := Probe(s.taken, p.prefix(kind), p.hash(first), 0);
      if out.None? {
        assert first in names && !Has(p, r, kind, first);
      } else {
        SetIdUnique(p, s, kind, first, out.value);
        RestNeeds(p, s, kind, names, out.value);
        AssignReports(p, SetId(s, kind, first, out.value).(taken := s.taken + {out.value}), kind, names[1..]);
        FirstKeeps(p, s, kind, names, out.value);
        assert names == [first] + names[1..];
        assert forall n :: n in names <==> n == first || n in names[1..];
      }
    }
  }

  lemma ComputeReports(p: Params, s: Symbols, kind: SymbolType)
    requires InvalidIsOutside(p) && Unique(p, s)
    ensures var r := Compute(p, s, kind);
      Unique(p, r) && r.errors == s.errors + Short(p, r.tables[kind])
      && forall k :: k != kind ==> r.tables[k] == s.tables[k]
  {
    var r, names := Compute(p, s, kind), Unassigned(p, s.tables[kind]);
    ComputeWorks(p, s, kind);
    AssignReports(p, s, kind, names);
    AssignGrows(p, s, kind, names);
    forall n ensures Needs(p, r.tables[kind], n) <==> n in names && !Has(p, r, kind, n) {
      assert ComputedAt(p, s, r, kind, kind, n);
    }
  }

  /** One error for every call that is refused, and one for every kind whose ids run out. */
  lemma ErrorsAre(p: Params, rs: seq<Request>)
    requires InvalidIsOutside(p)
    ensures var r := Create(p, rs);
      r.errors == Refused(rs, |rs|)
                  + Short(p, r.tables[ACTION]) + Short(p, r.tables[TABLE]) + Short(p, r.tables[ACTION_PROFILE])
                  + Short(p, r.tables[COUNTER]) + Short(p, r.tables[METER])
  {
    var s := AddAll(p, rs);
    AddedAre(p, rs);
    AddAllUnique(p, rs);
    FirstReports(p, s);
    LastReports(p, Compute(p, Compute(p, Compute(p, s, ACTION), TABLE), ACTION_PROFILE));
  }

  lemma FirstReports(p: Params, s: Symbols)
    requires InvalidIsOutside(p) && Unique(p, s)
    ensures var r := Compute(p, Compute(p, Compute(p, s, ACTION), TABLE), ACTION_PROFILE);
      Unique(p, r) && r.errors == s.errors + Short(p, r.tables[ACTION]) + Short(p, r.tables[TABLE])
                                  + Short(p, r.tables[ACTION_PROFILE])
  {
    ComputeReports(p, s, ACTION);
    var s1 := Compute(p, s, ACTION);
    ComputeReports(p, s1, TABLE);
    ComputeReports(p, Compute(p, s1, TABLE), ACTION_PROFILE);
  }

  lemma LastReports(p: Params, s: Symbols)
    requires InvalidIsOutside(p) && Unique(p, s)
    ensures var r := Compute(p, Compute(p, s, COUNTER), METER);
      && r.errors == s.errors + Short(p, r.tables[COUNTER]) + Short(p, r.tables[METER])
      && forall k :: k != COUNTER && k != METER ==> r.tables[k] == s.tables[k]
  {
    ComputeReports(p, s, COUNTER);
    ComputeReports(p, Compute(p, s, COUNTER), METER);
  }
}
