/** What a load builds, whatever it reads: a graph without cycles, in which nothing else points to
    what a field of vector type points to, and whose ids no later node can get. */
module LoadedShape {
  import opened Options
  import opened JsonValues
  import opened GraphJson

  ghost predicate TargetBelow(h: Heap, s: Slot)
  {
    TargetOf(h, s).Some? ==> TargetOf(h, s).value < s.owner
  }

  ghost predicate Sole(cs: Classes, h: Heap, s: Slot, t: Slot)
  {
    IsVector(cs, h, s) && TargetOf(h, s).Some? && TargetOf(h, s) == TargetOf(h, t) ==> s == t
  }

  ghost predicate Sided(cs: Classes, h: Heap, vecs: set<Addr>, s: Slot)
  {
    TargetOf(h, s).Some? ==> (TargetOf(h, s).value in vecs <==> IsVector(cs, h, s))
  }

  /** `vecs` holds the objects that were built for fields of vector type. */
  ghost predicate Shaped(cs: Classes, st: State, vecs: set<Addr>)
  {
    && (forall s: Slot :: TargetBelow(st.heap, s))
    && (forall s: Slot, t: Slot :: Sole(cs, st.heap, s, t))
    && (forall s: Slot :: Sided(cs, st.heap, vecs, s))
    && (forall k :: k in st.refs ==> st.refs[k] < |st.heap| && st.refs[k] !in vecs)
    && (forall a :: a in vecs ==> a < |st.heap|)
    && (forall y :: 0 <= y < |st.heap| ==> st.heap[y].id < st.currentId)
  }

  /** Nothing points to `a` yet. */
  ghost predicate Unowned(h: Heap, a: Addr)
  {
    a < |h| && forall s: Slot :: TargetOf(h, s) != Some(a)
  }

  ghost predicate Step(cs: Classes, st: State, vecs: set<Addr>, st1: State, vecs1: set<Addr>)
  {
    && Shaped(cs, st1, vecs1) && |st.heap| <= |st1.heap| && vecs <= vecs1 && st.currentId <= st1.currentId
    && (forall a :: a in vecs1 ==> a in vecs || |st.heap| <= a)
    && (forall a :: a in vecs && Unowned(st.heap, a) ==> Unowned(st1.heap, a))
  }

  /** The value `v` has been read for a field of kind `k`, from a heap of the size `start`. */
  ghost predicate ValueShaped(k: Kind, v: Value, start: nat, st: State, vecs: set<Addr>)
  {
    match k
    case PlainField => v.Plain?
    case PointerField(_) => v.Pointer? && (v.target.Some? ==> v.target.value < |st.heap| && v.target.value !in vecs)
    case VectorField(_, _) =>
      && v.Pointer?
      && (v.target.Some? ==> v.target.value >= start && v.target.value in vecs && Unowned(st.heap, v.target.value))
    case ElementsField => v.Elements? && forall a :: a in v.items ==> a < |st.heap| && a !in vecs
  }

  ghost predicate ValuesShaped(fs: seq<Field>, vs: seq<Value>, start: nat, st: State, vecs: set<Addr>)
  {
    && |vs| == |fs|
    && (forall i :: 0 <= i < |fs| ==> ValueShaped(fs[i].kind, vs[i], start, st, vecs))
    && (forall i, j :: 0 <= i < j < |fs| ==> Apart(fs, vs, i, j))
  }

  ghost predicate Apart(fs: seq<Field>, vs: seq<Value>, i: nat, j: nat)
    requires i < |fs| == |vs| && j < |vs|
  {
    fs[i].kind.VectorField? && fs[j].kind.VectorField? && vs[i].Pointer? && vs[i].target.Some? ==> vs[i] != vs[j]
  }

  // ---------- a new object ----------

  lemma PushTargets(h: Heap, o: Object, s: Slot)
    ensures s.owner < |h| ==> TargetOf(h + [o], s) == TargetOf(h, s)
    ensures s.owner > |h| ==> TargetOf(h + [o], s) == None
  {}

  /** The values of a new object of class `typ` have been read. */
  ghost predicate Ready(cs: Classes, st: State, vecs: set<Addr>, start: nat, o: Object)
  {
    o.typ in cs && o.id < st.currentId && Shaped(cs, st, vecs)
      && ValuesShaped(cs[o.typ].fields, o.values, start, st, vecs)
  }

  lemma NewTargets(cs: Classes, st: State, vecs: set<Addr>, start: nat, o: Object, s: Slot)
    requires Ready(cs, st, vecs, start, o) && s.owner == |st.heap| && TargetOf(st.heap + [o], s).Some?
    ensures (var a := TargetOf(st.heap + [o], s).value;
      && a < |st.heap|
      && (IsVector(cs, st.heap + [o], s) ==> a in vecs && a >= start && Unowned(st.heap, a))
      && (!IsVector(cs, st.heap + [o], s) ==> a !in vecs))
  {
    var k, v := cs[o.typ].fields[s.field].kind, o.values[s.field];
    assert ValueShaped(k, v, start, st, vecs);
    if v.Elements? { assert v.items[s.item] in v.items; }
  }

  lemma PushSole(cs: Classes, st: State, vecs: set<Addr>, start: nat, o: Object, s: Slot, t: Slot)
    requires Ready(cs, st, vecs, start, o)
    ensures Sole(cs, st.heap + [o], s, t)
  {
    var h, fs := st.heap + [o], cs[o.typ].fields;
    if IsVector(cs, h, s) && TargetOf(h, s).Some? && TargetOf(h, s) == TargetOf(h, t) {
      PushTargets(st.heap, o, s);
      PushTargets(st.heap, o, t);
      var n := |st.heap|;
      if s.owner < n && t.owner < n {
        assert Sole(cs, st.heap, s, t);
      } else if s.owner < n {
        assert Sided(cs, st.heap, vecs, s);
        NewTargets(cs, st, vecs, start, o, t);
      } else {
        NewTargets(cs, st, vecs, start, o, s);
        NewTargets(cs, st, vecs, start, o, t);
        assert ValueShaped(fs[s.field].kind, o.values[s.field], start, st, vecs);
        assert ValueShaped(fs[t.field].kind, o.values[t.field], start, st, vecs);
        assert s.field < t.field ==> Apart(fs, o.values, s.field, t.field);
        assert t.field < s.field ==> Apart(fs, o.values, t.field, s.field);
      }
    }
  }

  lemma PushShaped(cs: Classes, st: State, vecs: set<Addr>, start: nat, o: Object)
    requires Ready(cs, st, vecs, start, o)
    ensures Shaped(cs, st.(heap := st.heap + [o]), vecs)
  {
    var h := st.heap + [o];
    forall s: Slot ensures TargetBelow(h, s) && Sided(cs, h, vecs, s) {
      PushTargets(st.heap, o, s);
      assert TargetBelow(st.heap, s) && Sided(cs, st.heap, vecs, s);
      if s.owner == |st.heap| && TargetOf(h, s).Some? { NewTargets(cs, st, vecs, start, o, s); }
    }
    forall s: Slot, t: Slot ensures Sole(cs, h, s, t) {
      PushSole(cs, st, vecs, start, o, s, t);
    }
  }

  lemma PushUnowned(cs: Classes, st: State, vecs: set<Addr>, start: nat, o: Object)
    requires Ready(cs, st, vecs, start, o)
    ensures Unowned(st.heap + [o], |st.heap|)
    ensures forall a :: a in vecs && a < start && Unowned(st.heap, a) ==> Unowned(st.heap + [o], a)
  {
    var h := st.heap + [o];
    forall s: Slot, a | TargetOf(h, s) == Some(a) ensures a < |st.heap| &&
      !(a in vecs && a < start && Unowned(st.heap, a))
    {
      PushTargets(st.heap, o, s);
      assert TargetBelow(st.heap, s);
      if s.owner == |st.heap| { NewTargets(cs, st, vecs, start, o, s); }
    }
  }

  // ---------- the loader's steps ----------

  lemma {:induction false} PointerShaped(cs: Classes, j: Json, st: State, vecs: set<Addr>) returns (vecs1: set<Addr>)
    requires Shaped(cs, st, vecs)
    ensures (var r := LoadPointer(cs, j, st);
      r.Some? ==> Step(cs, st, vecs, r.value.st, vecs1) && r.value.value < |r.value.st.heap| && r.value.value !in vecs1)
    decreases j, 1
  {
    vecs1 := vecs;
    var e := EntryOf(j, "Node_ID");
    if e.Some? && e.value.JNumber? && e.value.number >= 0 && e.value.number !in st.refs {
      var t := EntryOf(j, "Node_Type");
      if t.Some? && t.value.JString? && t.value.text in cs && cs[t.value.text].listed {
        vecs1 := ObjectShaped(cs, t.value.text, j, st, vecs);
      }
    }
  }

  lemma {:induction false} ObjectShaped(cs: Classes, typ: string, j: Json, st: State, vecs: set<Addr>)
    returns (vecs1: set<Addr>)
    requires Shaped(cs, st, vecs) && typ in cs
    ensures (var r := LoadObject(cs, typ, j, st);
      r.Some? ==>
        && Step(cs, st, vecs, r.value.st, vecs1) && |st.heap| <= r.value.value && r.value.value !in vecs1
        && Unowned(r.value.st.heap, r.value.value)
        && forall k :: k in r.value.st.refs ==> r.value.st.refs[k] != r.value.value)
    decreases j, 0, 1
  {
    vecs1 := vecs;
    var id := OwnId(j, st.currentId);
    if id.Some? {
      var st0 := st.(currentId := if id.value >= st.currentId then id.value + 1 else st.currentId);
      vecs1 := FieldsShaped(cs, cs[typ].fields, j, st0, vecs);
      var r := LoadFields(cs, cs[typ].fields, j, st0);
      if r.Some? {
        var o := Object(id.value, typ, r.value.value);
        PushShaped(cs, r.value.st, vecs1, |st.heap|, o);
        PushUnowned(cs, r.value.st, vecs1, |st.heap|, o);
      }
    }
  }

  lemma {:induction false} FieldsShaped(cs: Classes, fs: seq<Field>, j: Json, st: State, vecs: set<Addr>)
    returns (vecs1: set<Addr>)
    requires Shaped(cs, st, vecs)
    ensures (var r := LoadFields(cs, fs, j, st);
      r.Some? ==>
        Step(cs, st, vecs, r.value.st, vecs1) && ValuesShaped(fs, r.value.value, |st.heap|, r.value.st, vecs1))
    decreases j, 0, 0, |fs|
  {
    vecs1 := vecs;
    if fs != [] {
      var f := LoadField(cs, fs[0], j, st);
      var e := EntryOf(j, fs[0].name);
      if e.Some? { vecs1 := ValueIsShaped(cs, fs[0].kind, e.value, st, vecs); }
      if f.Some? {
        var mid := vecs1;
        vecs1 := FieldsShaped(cs, fs[1..], j, f.value.st, mid);
        var r := LoadFields(cs, fs[1..], j, f.value.st);
        if r.Some? {
          MoreShaped(cs, fs, st, vecs, f.value.st, mid, r.value.st, vecs1, f.value.value, r.value.value);
        }
      }
    }
  }

  lemma MoreShaped(cs: Classes, fs: seq<Field>, st: State, vecs: set<Addr>, st1: State, vecs1: set<Addr>,
                   st2: State, vecs2: set<Addr>, v: Value, vs: seq<Value>)
    requires fs != [] && Step(cs, st, vecs, st1, vecs1) && Step(cs, st1, vecs1, st2, vecs2)
    requires ValueShaped(fs[0].kind, v, |st.heap|, st1, vecs1) && ValuesShaped(fs[1..], vs, |st1.heap|, st2, vecs2)
    ensures ValuesShaped(fs, [v] + vs, |st.heap|, st2, vecs2)
  {
    var all := [v] + vs;
    forall i | 0 <= i < |fs| ensures ValueShaped(fs[i].kind, all[i], |st.heap|, st2, vecs2) {
      if i > 0 { assert ValueShaped(fs[1..][i - 1].kind, vs[i - 1], |st1.heap|, st2, vecs2); }
    }
    forall i, k | 0 <= i < k < |fs| ensures Apart(fs, all, i, k) {
      assert ValueShaped(fs[1..][k - 1].kind, vs[k - 1], |st1.heap|, st2, vecs2);
      if i > 0 { assert Apart(fs[1..], vs, i - 1, k - 1); }
    }
  }

  lemma {:induction false} ValueIsShaped(cs: Classes, k: Kind, j: Json, st: State, vecs: set<Addr>)
    returns (vecs1: set<Addr>)
    requires Shaped(cs, st, vecs)
    ensures (var r := LoadValue(cs, k, j, st);
      r.Some? ==> Step(cs, st, vecs, r.value.st, vecs1) && ValueShaped(k, r.value.value, |st.heap|, r.value.st, vecs1))
    decreases j, 2
  {
    vecs1 := vecs;
    match k
    case PlainField =>
    case PointerField(_) =>
      vecs1 := PointerShaped(cs, j, st, vecs);
    case VectorField(typ, _) =>
      if typ in cs {
        var vecs0 := ObjectShaped(cs, typ, j, st, vecs);
        var r := LoadObject(cs, typ, j, st);
        if r.Some? {
          vecs1 := vecs0 + {r.value.value};
          assert Step(cs, st, vecs, r.value.st, vecs1) by { OwnedByVector(cs, r.value.st, vecs0, r.value.value); }
        }
      }
    case ElementsField =>
      if j.JVector? { vecs1 := ItemsShaped(cs, j.items, st, vecs); }
  }

  lemma OwnedByVector(cs: Classes, st: State, vecs: set<Addr>, a: Addr)
    requires Shaped(cs, st, vecs) && Unowned(st.heap, a) && forall k :: k in st.refs ==> st.refs[k] != a
    ensures Shaped(cs, st, vecs + {a})
  {
    forall s: Slot ensures Sided(cs, st.heap, vecs + {a}, s) {
      assert Sided(cs, st.heap, vecs, s);
    }
  }

  lemma {:induction false} ItemsShaped(cs: Classes, js: seq<Json>, st: State, vecs: set<Addr>)
    returns (vecs1: set<Addr>)
    requires Shaped(cs, st, vecs)
    ensures (var r := LoadItems(cs, js, st);
      r.Some? ==>
        && Step(cs, st, vecs, r.value.st, vecs1)
        && forall a :: a in r.value.value ==> a < |r.value.st.heap| && a !in vecs1)
    decreases js, 0
  {
    vecs1 := vecs;
    if js != [] {
      var mid := PointerShaped(cs, js[0], st, vecs);
      var p := LoadPointer(cs, js[0], st);
      if p.Some? { vecs1 := ItemsShaped(cs, js[1..], p.value.st, mid); }
    }
  }

  /** Whatever text is loaded, its root is not a vector's, and the ids loaded are below the next new id. */
  lemma LoadedIsShaped(cs: Classes, j: Json, currentId: int) returns (vecs: set<Addr>)
    ensures (var r := Load(cs, j, currentId);
      r.Some? ==> Shaped(cs, r.value.st, vecs) && r.value.value == |r.value.st.heap| - 1)
  {
    vecs := PointerShaped(cs, j, State([], map[], currentId), {});
  }
}
