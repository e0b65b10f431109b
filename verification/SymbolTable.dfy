/** `P4RuntimeSymbolTable` as it runs. */
module SymbolTables {
  import opened Options
  import opened SymbolIds
  import IdOrder

  class P4RuntimeSymbolTable {
    const p: Params
    var symbolTables: map<SymbolType, Table>
    var assignedIds: set<U32>
    var errors: nat

    constructor (p: Params)
      ensures this.p == p && AsSymbols() == EMPTY && Complete(AsSymbols())
    {
      this.p := p;
      symbolTables, assignedIds, errors := EMPTY.tables, {}, 0;
      new;
      EmptyIsComplete();
    }

    ghost function AsSymbols(): Symbols
      reads this
    {
      Symbols(symbolTables, assignedIds, errors)
    }

    /** `create`: the ids of the symbols that were added, whatever the order they were added in. */
    static method Create(p: Params, requests: seq<Request>) returns (t: P4RuntimeSymbolTable)
      ensures fresh(t) && t.p == p && t.AsSymbols() == SymbolIds.Create(p, requests)
      ensures InvalidIsOutside(p) ==> Unique(p, t.AsSymbols())
      ensures InvalidIsOutside(p) ==> forall k, n :: IdOrder.Placed(p, AddAll(p, requests), t.AsSymbols(), k, n)
    {
      t := new P4RuntimeSymbolTable(p);
      var i := 0;
      while i < |requests|
        invariant i <= |requests| && fresh(t) && t.p == p && t.AsSymbols() == AddAll(p, requests[..i])
      {
        assert requests[..i + 1][..i] == requests[..i];
        t.Add(requests[i].kind, requests[i].name, requests[i].id);
        i := i + 1;
      }
      assert requests[..i] == requests;
      t.ComputeIdsForSymbols(ACTION);
      t.ComputeIdsForSymbols(TABLE);
      t.ComputeIdsForSymbols(ACTION_PROFILE);
      t.ComputeIdsForSymbols(COUNTER);
      t.ComputeIdsForSymbols(METER);
      if InvalidIsOutside(p) {
        IdsAreUnique(p, requests);
        IdOrder.IdsAreFirstFree(p, requests);
      }
    }

    method Add(kind: SymbolType, name: string, id: Option<U32>)
      requires Complete(AsSymbols())
      modifies this
      ensures AsSymbols() == SymbolIds.Add(p, old(AsSymbols()), Request(kind, name, id))
    {
      if name in symbolTables[kind] { return; }
      var granted := TryToAssignId(id);
      var t: Table := symbolTables[kind][name := granted];
      symbolTables := symbolTables[kind := t];
    }

    method TryToAssignId(id: Option<U32>) returns (granted: U32)
      modifies this`assignedIds, this`errors
      ensures granted == if id.Some? && id.value !in old(assignedIds) then id.value else p.invalid
      ensures assignedIds == old(assignedIds) + if id.Some? then {id.value} else {}
      ensures errors == old(errors) + if id.Some? && id.value in old(assignedIds) then 1 else 0
    {
      if id.None? { return p.invalid; }
      if id.value in assignedIds {
        errors := errors + 1;
        return p.invalid;
      }
      assignedIds := assignedIds + {id.value};
      granted := id.value;
    }

    /** The names without an id, as a `std::map` lists them. */
    method SortedUnassigned(kind: SymbolType) returns (names: seq<string>)
      requires Complete(AsSymbols())
      ensures names == Unassigned(p, symbolTables[kind])
    {
      var t := symbolTables[kind];
      var rest := t.Keys;
      names := [];
      while rest != {}
        invariant rest <= t.Keys && Listing(p, t, t.Keys - rest, names)
        decreases rest
      {
        var n :| n in rest;
        rest := rest - {n};
        if t[n] == p.invalid {
          names := Insert(names, n);
        }
      }
      assert t.Keys - {} == t.Keys;
      SortedIsUnique(names, Unassigned(p, t));
    }

    static method Insert(names: seq<string>, n: string) returns (r: seq<string>)
      requires Sorted(names) && n !in names
      ensures Sorted(r) && forall m :: m in r <==> m == n || m in names
    {
      var i := 0;
      while i < |names| && Less(names[i], n)
        invariant i <= |names| && forall j :: 0 <= j < i ==> Less(names[j], n)
      {
        i := i + 1;
      }
      r := names[..i] + [n] + names[i..];
      if i < |names| {
        LessTotal(names[i], n);
        forall j | i <= j < |names| ensures Less(n, names[j]) {
          if j > i { LessTransitive(n, names[i], names[j]); }
        }
      }
      assert names == names[..i] + names[i..];
    }

    method ComputeIdsForSymbols(kind: SymbolType)
      requires Complete(AsSymbols())
      modifies this
      ensures AsSymbols() == Compute(p, old(AsSymbols()), kind) && Complete(AsSymbols())
      ensures InvalidIsOutside(p) && Unique(p, old(AsSymbols())) ==>
        Unique(p, AsSymbols()) && forall n :: IdOrder.Computes(p, old(AsSymbols()), AsSymbols(), kind, n)
    {
      ghost var s := AsSymbols();
      var names := SortedUnassigned(kind);
      AssignNames(kind, names);
      assert Compute(p, s, kind) == Assign(p, s, kind, names);
      if InvalidIsOutside(p) && Unique(p, s) { IdOrder.ComputesInOrder(p, s, kind); }
    }

    method AssignNames(kind: SymbolType, names: seq<string>)
      requires kind in symbolTables
      modifies this
      ensures AsSymbols() == Assign(p, old(AsSymbols()), kind, names)
    {
      ghost var goal := Assign(p, AsSymbols(), kind, names);
      assert names[0..] == names;
      var i := 0;
      while i < |names|
        invariant i <= |names| && kind in symbolTables && goal == Assign(p, AsSymbols(), kind, names[i..])
      {
        ghost var before := AsSymbols();
        AssignNext(p, before, kind, names, i);
        var found := AssignOne(kind, names[i]);
        assert (found, AsSymbols()) == Step(p, before, kind, names[i]);
        if !found { return; }
        i := i + 1;
      }
      assert names[i..] == [];
    }

    /** One name gets the first free id; if there is none, that is reported. */
    method AssignOne(kind: SymbolType, name: string) returns (found: bool)
      requires kind in symbolTables
      modifies this
      ensures found == Step(p, old(AsSymbols()), kind, name).0 && AsSymbols() == Step(p, old(AsSymbols()), kind, name).1
    {
      var id := ProbeForId(p.hash(name), p.prefix(kind));
      if id.None? {
        errors := errors + 1;
        return false;
      }
      Give(kind, name, id.value);
      found := true;
    }

    method Give(kind: SymbolType, name: string, id: U32)
      requires kind in symbolTables
      modifies this`assignedIds, this`symbolTables
      ensures AsSymbols() == SetId(old(AsSymbols()), kind, name, id).(taken := old(assignedIds) + {id})
    {
      assignedIds := assignedIds + {id};
      var t: Table := symbolTables[kind][name := id];
      symbolTables := symbolTables[kind := t];
    }

    /** Probing ends in spite of the wrap-around and finds the first free id in cyclic order, unless
        all ids of the resource type are taken. */
    method ProbeForId(sourceValue: U32, prefix: Byte) returns (id: Option<U32>)
      ensures id == Probe(assignedIds, prefix, sourceValue, 0)
      ensures id.None? <==> AllTaken(assignedIds, prefix)
    {
      var value: U32 := sourceValue;
      ghost var k: nat := 0;
      while ConstructId(prefix, value) in assignedIds
        invariant k < WORD && value == At(sourceValue, k) && Missed(assignedIds, prefix, sourceValue, k)
        decreases WORD - k
      {
        MissAgain(assignedIds, prefix, sourceValue, k);
        Wrap(sourceValue, k);
        value := Increment(value);
        k := k + 1;
        if value == sourceValue {
          AllMissed(assignedIds, prefix, sourceValue, k);
          return None;
        }
      }
      FoundAt(assignedIds, prefix, sourceValue, k);
      id := Some(ConstructId(prefix, value));
    }
  }

  lemma AssignNext(p: Params, s: Symbols, kind: SymbolType, names: seq<string>, i: nat)
    requires kind in s.tables && i < |names|
    ensures (var (found, r) := Step(p, s, kind, names[i]);
      kind in r.tables && Assign(p, s, kind, names[i..]) == if found then Assign(p, r, kind, names[i + 1..]) else r)
  {
    assert names[i..][1..] == names[i + 1..];
  }

  function Step(p: Params, s: Symbols, kind: SymbolType, name: string): (bool, Symbols)
    requires kind in s.tables
  {
    match Probe(s.taken, p.prefix(kind), p.hash(name), 0)
    case None => (false, s.(errors := s.errors + 1))
    case Some(id) => (true, SetId(s, kind, name, id).(taken := s.taken + {id}))
  }

  /** `++` of a 32-bit number. */
  function Increment(v: U32): U32
  {
    (v + 1) % WORD
  }

  function At(source: U32, k: nat): U32
  {
    (source + k) % WORD
  }

  /** One increment of a `uint32_t`, and when it is back where it began. */
  lemma Wrap(source: U32, k: nat)
    requires k < WORD
    ensures Increment(At(source, k)) == At(source, k + 1)
    ensures At(source, k + 1) == source <==> k + 1 == WORD
  {
    var a := source + k;
    assert a < 2 * WORD;
    if a < WORD { assert a % WORD == a; } else { assert a % WORD == a - WORD; }
  }

  /** The first `k` values probed are taken. */
  ghost predicate Missed(taken: set<U32>, prefix: Byte, hash: U32, k: nat)
  {
    forall j :: 0 <= j < k ==> ProbeId(prefix, hash, j) in taken
  }

  lemma MissAgain(taken: set<U32>, prefix: Byte, hash: U32, k: nat)
    requires Missed(taken, prefix, hash, k) && ConstructId(prefix, At(hash, k)) in taken
    ensures Missed(taken, prefix, hash, k + 1)
  {}

  /** If the values up to the `k`-th are taken, so is everything, once `k` has gone round. */
  lemma AllMissed(taken: set<U32>, prefix: Byte, hash: U32, k: nat)
    requires k == WORD && Missed(taken, prefix, hash, k)
    ensures Probe(taken, prefix, hash, 0) == None && AllTaken(taken, prefix)
  {
    ProbeIsComplete(taken, prefix, hash, 0);
    forall id: U32 | HasPrefix(id, prefix) ensures id in taken {
      var j := EveryIdIsProbed(prefix, hash, id);
    }
  }

  lemma {:induction false} FoundAt(taken: set<U32>, prefix: Byte, hash: U32, k: nat)
    requires ConstructId(prefix, At(hash, k)) !in taken && Missed(taken, prefix, hash, k)
    ensures Probe(taken, prefix, hash, 0) == Some(ConstructId(prefix, At(hash, k))) && !AllTaken(taken, prefix)
  {
    ProbeIsComplete(taken, prefix, hash, 0);
    ProbeIdIs(prefix, hash, k);
    if Probe(taken, prefix, hash, 0).Some? {
      var j: nat :| j < 0x1_0000 && FirstFree(taken, prefix, hash, j, Probe(taken, prefix, hash, 0).value);
      assert j == k;
    }
  }
}
