/** A graph comes back from its JSON exactly if it has no cycle, no null string and no shared vector. */
module GraphJsonProof {
  import opened Options
  import opened Sequences
  import opened JsonValues
  import opened GraphJson
  import opened WrittenJson
  import LoadedShape
  import NullStrings

  /** The graph at hand, the order that shows it can be loaded, and the ids given out before. */
  datatype Ctx = Ctx(cs: Classes, g: Heap, root: Addr, order: seq<Addr>)

  ghost predicate Fine(c: Ctx)
  {
    WellTyped(c.cs, c.g) && Loadable(c.cs, c.g, c.root, c.order)
  }

  /** How far writing and reading have come together: the objects that are complete, in the order of
      the heap that is being built; those begun; the slots followed; and the complete objects that
      the loader keeps no id for. */
  datatype Walk = Walk(src: seq<Addr>, busy: set<Addr>, done: set<Slot>, loose: set<Addr>)

  ghost predicate Kept(c: Ctx, st: State, y: Addr)
    requires y < |st.heap|
  {
    st.heap[y].id in st.refs && st.refs[st.heap[y].id] == y
  }

  ghost predicate BuiltAt(c: Ctx, st: State, w: Walk, y: Addr)
    requires |w.src| == |st.heap| && y < |w.src|
  {
    && w.src[y] in c.order && w.src[y] < |c.g| && w.src[y] !in w.busy
    && Copy(c.g[w.src[y]], st.heap[y], w.src)
    && (w.src[y] in w.loose || Kept(c, st, y))
  }

  ghost predicate KeptAt(c: Ctx, st: State, w: Walk, k: int)
    requires |w.src| == |st.heap| && k in st.refs
  {
    var y := st.refs[k];
    y < |w.src| && w.src[y] < |c.g| && c.g[w.src[y]].id == k
  }

  ghost predicate WrittenAt(c: Ctx, refs: set<int>, w: Walk, a: Addr)
    requires a < |c.g|
  {
    c.g[a].id in refs <==> a in w.src || a in w.busy
  }

  ghost predicate Followed(c: Ctx, w: Walk, a: Addr)
  {
    a == c.root || exists s: Slot :: s in w.done && TargetOf(c.g, s) == Some(a)
  }

  ghost predicate Inv(c: Ctx, refs: set<int>, st: State, w: Walk)
  {
    && |w.src| == |st.heap| && Distinct(w.src)
    && (forall y :: 0 <= y < |w.src| ==> BuiltAt(c, st, w, y))
    && (forall k :: k in st.refs ==> KeptAt(c, st, w, k))
    && (forall a :: 0 <= a < |c.g| ==> WrittenAt(c, refs, w, a))
    && (forall a :: a in w.busy ==> a in c.order)
    && (forall a {:trigger Followed(c, w, a)} :: a in w.src || a in w.busy ==> Followed(c, w, a))
    && (forall s :: s in w.done ==> s.owner in w.src || s.owner in w.busy)
  }

  /** What the loader keeps no id for was reached through a field of vector type. */
  ghost predicate VectorTarget(c: Ctx, a: Addr)
  {
    exists s: Slot :: s.owner in c.order && IsVector(c.cs, c.g, s) && TargetOf(c.g, s) == Some(a)
  }

  ghost predicate LooseOk(c: Ctx, loose: set<Addr>)
  {
    forall a :: a in loose ==> VectorTarget(c, a)
  }

  /** `w1` follows on `w`, and of the objects begun has followed slots of those in `own` only. */
  ghost predicate Grows(w: Walk, w1: Walk, own: set<Addr>)
  {
    && w.src <= w1.src && w.busy == w1.busy && w.done <= w1.done
    && forall s :: s in w1.done ==> s in w.done || s.owner !in w.busy || s.owner in own
  }

  ghost predicate Above(c: Ctx, busy: set<Addr>, r: nat)
  {
    forall b :: b in busy && b in c.order ==> r <= Rank(c.order, b)
  }

  lemma LinkedGrows(v: Value, x: Value, src: seq<Addr>, src1: seq<Addr>)
    requires Linked(v, x, src) && src <= src1
    ensures Linked(v, x, src1)
  {}

  lemma CopyGrows(o: Object, p: Object, src: seq<Addr>, src1: seq<Addr>)
    requires Copy(o, p, src) && src <= src1
    ensures Copy(o, p, src1)
  {
    forall i | 0 <= i < |o.values| ensures Linked(o.values[i], p.values[i], src1) {
      LinkedGrows(o.values[i], p.values[i], src, src1);
    }
  }

  // ---------- beginning and completing an object ----------

  ghost function Begun(w: Walk, a: Addr): Walk
  {
    w.(busy := w.busy + {a})
  }

  lemma BeginOk(c: Ctx, a: Addr, refs: set<int>, st: State, w: Walk, current: int)
    requires Fine(c) && Inv(c, refs, st, w) && a in c.order && c.g[a].id !in refs && Followed(c, w, a)
    ensures a !in w.src && a !in w.busy
    ensures forall s :: s in w.done ==> s.owner != a
    ensures Inv(c, refs + {c.g[a].id}, st.(currentId := current), Begun(w, a))
  {
    assert WrittenAt(c, refs, w, a);
    var w1, st1 := Begun(w, a), st.(currentId := current);
    forall y | 0 <= y < |w.src| ensures BuiltAt(c, st1, w1, y) {
      assert BuiltAt(c, st, w, y);
      assert w.src[y] in w.src;
    }
    forall k | k in st.refs ensures KeptAt(c, st1, w1, k) {
      assert KeptAt(c, st, w, k);
    }
    forall b | 0 <= b < |c.g| ensures WrittenAt(c, refs + {c.g[a].id}, w1, b) {
      assert WrittenAt(c, refs, w, b);
      SameId(c, a, b);
    }
    forall b | b in w1.src || b in w1.busy ensures Followed(c, w1, b) {
      assert Followed(c, w, b);
    }
  }

  lemma SameId(c: Ctx, a: Addr, b: Addr)
    requires WellTyped(c.cs, c.g) && a < |c.g| && b < |c.g|
    ensures c.g[a].id == c.g[b].id ==> a == b
  {
    if a < b { assert IdsDiffer(c.g, a, b); }
    if b < a { assert IdsDiffer(c.g, b, a); }
  }

  ghost function Completed(w: Walk, a: Addr): Walk
  {
    Walk(w.src + [a], w.busy - {a}, w.done, w.loose + {a})
  }

  lemma CompleteOk(c: Ctx, a: Addr, refs: set<int>, st: State, w: Walk, o: Object)
    requires Fine(c) && Inv(c, refs, st, w) && a in w.busy && Copy(c.g[a], o, w.src)
    ensures Inv(c, refs, st.(heap := st.heap + [o]), Completed(w, a))
  {
    var w1, st1 := Completed(w, a), st.(heap := st.heap + [o]);
    forall y | 0 <= y < |w.src| ensures w.src[y] != a {
      assert BuiltAt(c, st, w, y);
    }
    forall y | 0 <= y < |w1.src| ensures BuiltAt(c, st1, w1, y) {
      if y < |w.src| {
        assert BuiltAt(c, st, w, y);
        CopyGrows(c.g[w.src[y]], st.heap[y], w.src, w1.src);
      } else {
        CopyGrows(c.g[a], o, w.src, w1.src);
      }
    }
    forall k | k in st.refs ensures KeptAt(c, st1, w1, k) {
      assert KeptAt(c, st, w, k);
    }
    forall b | 0 <= b < |c.g| ensures WrittenAt(c, refs, w1, b) {
      assert WrittenAt(c, refs, w, b);
    }
    forall b | b in w1.src || b in w1.busy ensures Followed(c, w1, b) {
      assert Followed(c, w, b);
    }
  }

  /** The loader keeps the id of what it has just built. */
  lemma KeepOk(c: Ctx, a: Addr, refs: set<int>, st: State, w: Walk)
    requires Fine(c) && Inv(c, refs, st, w) && w.src != [] && w.src[|w.src| - 1] == a && a < |c.g|
    ensures Inv(c, refs, st.(refs := st.refs[c.g[a].id := |w.src| - 1]), w.(loose := w.loose - {a}))
  {
    var n := |w.src| - 1;
    var st1, w1 := st.(refs := st.refs[c.g[a].id := n]), w.(loose := w.loose - {a});
    forall y | 0 <= y < |w.src| ensures BuiltAt(c, st1, w1, y) {
      assert BuiltAt(c, st, w, y);
      SameId(c, a, w.src[y]);
    }
    forall k | k in st1.refs ensures KeptAt(c, st1, w1, k) {
      if k in st.refs { assert KeptAt(c, st, w, k); }
    }
    forall b | 0 <= b < |c.g| ensures WrittenAt(c, refs, w1, b) {
      assert WrittenAt(c, refs, w, b);
    }
    forall b | b in w1.src || b in w1.busy ensures Followed(c, w1, b) {
      assert Followed(c, w, b);
    }
  }

  /** A slot is followed. */
  lemma FollowOk(c: Ctx, s: Slot, refs: set<int>, st: State, w: Walk)
    requires Fine(c) && Inv(c, refs, st, w) && s.owner in w.busy && TargetOf(c.g, s).Some?
    ensures Inv(c, refs, st, w.(done := w.done + {s}))
    ensures Followed(c, w.(done := w.done + {s}), TargetOf(c.g, s).value)
    ensures TargetOf(c.g, s).value in c.order
    ensures Rank(c.order, TargetOf(c.g, s).value) < Rank(c.order, s.owner)
  {
    var w1 := w.(done := w.done + {s});
    assert Downward(c.g, c.order, s);
    forall y | 0 <= y < |w.src| ensures BuiltAt(c, st, w1, y) {
      assert BuiltAt(c, st, w, y);
    }
    forall k | k in st.refs ensures KeptAt(c, st, w1, k) {
      assert KeptAt(c, st, w, k);
    }
    forall b | 0 <= b < |c.g| ensures WrittenAt(c, refs, w1, b) {
      assert WrittenAt(c, refs, w, b);
    }
    forall b | b in w1.src || b in w1.busy ensures Followed(c, w1, b) {
      assert Followed(c, w, b);
    }
    assert s in w1.done;
  }

  // ---------- reading follows writing ----------

  ghost predicate FieldsLeft(w: Walk, x: Addr, i: nat)
  {
    forall s :: s in w.done && s.owner == x ==> s.field < i
  }

  ghost predicate ItemsLeft(w: Walk, x: Addr, i: nat, k: nat)
  {
    forall s :: s in w.done && s.owner == x ==> s.field < i || (s.field == i && s.item < k)
  }

  ghost predicate Ready(c: Ctx, refs: set<int>, st: State, w: Walk, r: nat)
  {
    Fine(c) && Inv(c, refs, st, w) && LooseOk(c, w.loose) && Above(c, w.busy, r)
  }

  ghost predicate InHand(c: Ctx, x: Addr, i: nat, w: Walk)
    requires Fine(c)
  {
    x in c.order && x in w.busy && i <= |c.g[x].values|
  }

  ghost function Fields(c: Ctx, x: Addr): seq<Field>
    requires Fine(c) && x in c.order
  {
    c.cs[c.g[x].typ].fields
  }

  lemma FieldFits(c: Ctx, x: Addr)
    requires Fine(c) && x in c.order
    ensures |Fields(c, x)| == |c.g[x].values| && FieldsOk(c.cs, Fields(c, x))
    ensures forall i :: 0 <= i < |c.g[x].values| ==> Fits(c.cs, c.g, Fields(c, x)[i].kind, c.g[x].values[i])
  {
    assert ObjectOk(c.cs, c.g, c.g[x]);
  }

  lemma IsKept(c: Ctx, a: Addr, st: State, w: Walk)
    requires |w.src| == |st.heap| && a in w.src && a !in w.loose && a < |c.g|
    requires forall y :: 0 <= y < |w.src| ==> BuiltAt(c, st, w, y)
    ensures c.g[a].id in st.refs && st.refs[c.g[a].id] < |w.src| && w.src[st.refs[c.g[a].id]] == a
  {
    var y: nat :| y < |w.src| && w.src[y] == a;
    assert BuiltAt(c, st, w, y);
  }

  lemma NotKept(c: Ctx, a: Addr, refs: set<int>, st: State, w: Walk)
    requires Fine(c) && Inv(c, refs, st, w) && a < |c.g| && c.g[a].id !in refs
    ensures c.g[a].id !in st.refs
  {
    var id := c.g[a].id;
    assert WrittenAt(c, refs, w, a);
    if id in st.refs {
      assert KeptAt(c, st, w, id);
      SameId(c, a, w.src[st.refs[id]]);
    }
  }

  lemma {:induction false} PointerBack(c: Ctx, a: Addr, refs: set<int>, st: State, w: Walk) returns (w1: Walk)
    requires a in c.order && Ready(c, refs, st, w, Rank(c.order, a) + 1)
    requires ListedNode(c.cs, c.g, a) && Followed(c, w, a) && (a in w.src ==> a !in w.loose)
    ensures (var wr := WriteNode(c.cs, c.g, a, refs); var r := LoadPointer(c.cs, wr.out, st);
      && r.Some? && Inv(c, wr.refs, r.value.st, w1) && LooseOk(c, w1.loose) && Grows(w, w1, {})
      && r.value.value < |w1.src| && w1.src[r.value.value] == a)
    decreases Rank(c.order, a), 4, 0
  {
    var id := c.g[a].id;
    assert WrittenAt(c, refs, w, a);
    assert ObjectOk(c.cs, c.g, c.g[a]);
    if id in refs {
      w1 := w;
      IsKept(c, a, st, w);
    } else {
      NotKept(c, a, refs, st, w);
      var w0 := ObjectBack(c, a, refs, st, w);
      var wr := WriteNode(c.cs, c.g, a, refs);
      WrittenHead(c.cs, c.g, a, refs);
      KeepOk(c, a, wr.refs, LoadObject(c.cs, c.g[a].typ, wr.out, st).value.st, w0);
      w1 := w0.(loose := w0.loose - {a});
    }
  }

  lemma {:induction false} ObjectBack(c: Ctx, a: Addr, refs: set<int>, st: State, w: Walk) returns (w1: Walk)
    requires a in c.order && Ready(c, refs, st, w, Rank(c.order, a) + 1)
    requires c.g[a].id !in refs && Followed(c, w, a)
    ensures (var wr := WriteNode(c.cs, c.g, a, refs);
      c.g[a].typ in c.cs &&
      var r := LoadObject(c.cs, c.g[a].typ, wr.out, st);
      && r.Some? && Inv(c, wr.refs, r.value.st, w1) && LooseOk(c, w1.loose - {a}) && Grows(w, w1, {})
      && |w1.src| > 0 && r.value.value == |w1.src| - 1 && w1.src[r.value.value] == a)
    decreases Rank(c.order, a), 3, 0
  {
    var o := c.g[a];
    FieldFits(c, a);
    assert ObjectOk(c.cs, c.g, o);
    var current := if o.id >= st.currentId then o.id + 1 else st.currentId;
    var st0, w0, refs0 := st.(currentId := current), Begun(w, a), refs + {o.id};
    BeginOk(c, a, refs, st, w, current);
    var fs := Fields(c, a);
    var wr := WriteFields(c.cs, c.g, fs, o.values, refs0);
    var pre := [IdEntry(o.id), TypeEntry(o.typ)];
    assert fs[0..] == fs && o.values[0..] == o.values;
    var w2 := FieldsBack(c, a, 0, pre, refs0, st0, w0);
    WriteNodeIs(c.cs, c.g, a, refs);
    var j := JObject(pre + wr.out);
    assert EntryOf(j, "Node_ID") == Some(JNumber(o.id)) by { WrittenHead(c.cs, c.g, a, refs); }
    ObjectBuilt(c, a, wr.refs, st, w2, j, LoadFields(c.cs, fs, j, st0).value);
    w1 := Completed(w2, a);
    CompletedGrows(w, w2, a);
  }

  lemma CompletedGrows(w: Walk, w2: Walk, a: Addr)
    requires Grows(Begun(w, a), w2, {a}) && a !in w.busy
    ensures Grows(w, Completed(w2, a), {})
  {
    assert Completed(w2, a).busy == w.busy;
  }

  /** With its fields read, the object is put together. */
  lemma ObjectBuilt(c: Ctx, a: Addr, refs: set<int>, st: State, w2: Walk, j: Json, r: Loaded<seq<Value>>)
    requires Fine(c) && a in w2.busy && a < |c.g| && c.g[a].typ in c.cs && c.g[a].id >= 0
    requires EntryOf(j, "Node_ID") == Some(JNumber(c.g[a].id))
    requires (var o := c.g[a];
      LoadFields(c.cs, c.cs[o.typ].fields, j, st.(currentId := if o.id >= st.currentId then o.id + 1 else st.currentId))
      == Some(r))
    requires Inv(c, refs, r.st, w2) && LinkedFrom(c.g[a].values, 0, r.value, w2.src)
    ensures (var o := LoadObject(c.cs, c.g[a].typ, j, st);
      o.Some? && Inv(c, refs, o.value.st, Completed(w2, a)) && o.value.value == |w2.src|)
  {
    var o := c.g[a];
    var p := Object(o.id, o.typ, r.value);
    LoadObjectIs(c.cs, o.typ, j, st, o.id, r);
    CopyFrom(o, p, w2.src);
    CompleteOk(c, a, refs, r.st, w2, p);
  }

  lemma CopyFrom(o: Object, p: Object, src: seq<Addr>)
    requires o.id == p.id && o.typ == p.typ && LinkedFrom(o.values, 0, p.values, src)
    ensures Copy(o, p, src)
  {
    forall i | 0 <= i < |o.values| ensures Linked(o.values[i], p.values[i], src) {
      assert Linked(o.values[0 + i], p.values[i], src);
    }
  }

  /** The values `ws` are those of `vs` from the `i`-th on. */
  ghost predicate LinkedFrom(vs: seq<Value>, i: nat, ws: seq<Value>, src: seq<Addr>)
  {
    i + |ws| == |vs| && forall k :: 0 <= k < |ws| ==> Linked(vs[i + k], ws[k], src)
  }

  lemma LinkedNext(vs: seq<Value>, i: nat, w: Value, ws: seq<Value>, src: seq<Addr>, src1: seq<Addr>)
    requires i < |vs| && Linked(vs[i], w, src) && src <= src1 && LinkedFrom(vs, i + 1, ws, src1)
    ensures LinkedFrom(vs, i, [w] + ws, src1)
  {
    LinkedGrows(vs[i], w, src, src1);
    forall k | 0 <= k < |ws| + 1 ensures Linked(vs[i + k], ([w] + ws)[k], src1) {
      if k > 0 { assert vs[i + k] == vs[i + 1 + (k - 1)]; }
    }
  }

  lemma {:induction false} FieldsBack(c: Ctx, x: Addr, i: nat, pre: seq<Entry>, refs: set<int>, st: State, w: Walk)
    returns (w1: Walk)
    requires x in c.order && Ready(c, refs, st, w, Rank(c.order, x)) && InHand(c, x, i, w) && FieldsLeft(w, x, i)
    requires |Fields(c, x)| == |c.g[x].values| && Unnamed(pre, Fields(c, x), i)
    requires forall k :: 0 <= k < |c.g[x].values| ==> Fits(c.cs, c.g, Fields(c, x)[k].kind, c.g[x].values[k])
    ensures (var wr := WriteFields(c.cs, c.g, Fields(c, x)[i..], c.g[x].values[i..], refs);
      var r := LoadFields(c.cs, Fields(c, x)[i..], JObject(pre + wr.out), st);
      && r.Some? && Inv(c, wr.refs, r.value.st, w1) && LooseOk(c, w1.loose) && Grows(w, w1, {x})
      && LinkedFrom(c.g[x].values, i, r.value.value, w1.src))
    decreases Rank(c.order, x), 2, |c.g[x].values| - i
  {
    var fs, vs := Fields(c, x), c.g[x].values;
    var wr := WriteFields(c.cs, c.g, fs[i..], vs[i..], refs);
    var j := JObject(pre + wr.out);
    if i == |vs| {
      w1 := w;
    } else {
      var v := WriteValue(c.cs, c.g, fs[i].kind, vs[i], refs);
      var rest := WriteFields(c.cs, c.g, fs[i + 1..], vs[i + 1..], v.refs);
      var first := FirstEntry(fs[i].name, v.out);
      assert NoKey(pre, fs[i].name);
      FieldFits(c, x);
      FieldsStep(c.cs, c.g, fs, vs, i, pre, refs, j);
      var w0 := ValueBack(c, x, i, refs, st, w);
      var f := LoadField(c.cs, fs[i], j, st).value;
      StillUnnamed(c.cs, pre, fs, i, v.out);
      w1 := FieldsBack(c, x, i + 1, pre + first, v.refs, f.st, w0);
      var r := LoadFields(c.cs, fs[i + 1..], j, f.st).value;
      LoadFieldsIs(c.cs, fs, i, j, st, f, r);
      LinkedNext(vs, i, f.value, r.value, w0.src, w1.src);
    }
  }

  lemma {:induction false} ValueBack(c: Ctx, x: Addr, i: nat, refs: set<int>, st: State, w: Walk) returns (w1: Walk)
    requires x in c.order && Ready(c, refs, st, w, Rank(c.order, x)) && InHand(c, x, i, w) && FieldsLeft(w, x, i)
    requires i < |c.g[x].values| == |Fields(c, x)| && Fits(c.cs, c.g, Fields(c, x)[i].kind, c.g[x].values[i])
    requires c.g[x].values[i] != Plain(JNull)
    ensures (var k := Fields(c, x)[i].kind;
      var v := WriteValue(c.cs, c.g, k, c.g[x].values[i], refs);
      var r := if v.out.None? then Some(Loaded(Default(k), st)) else LoadValue(c.cs, k, v.out.value, st);
      && r.Some? && Inv(c, v.refs, r.value.st, w1) && LooseOk(c, w1.loose) && Grows(w, w1, {x})
      && FieldsLeft(w1, x, i + 1) && Linked(c.g[x].values[i], r.value.value, w1.src))
    decreases Rank(c.order, x), 1, 0
  {
    var v := c.g[x].values[i];
    w1 := w;
    match v
    case Plain(_) =>
    case Pointer(None) =>
    case Pointer(Some(b)) =>
      if Fields(c, x)[i].kind.VectorField? {
        w1 := VectorBack(c, x, i, b, refs, st, w);
      } else {
        var s := Slot(x, i, 0);
        w1 := SlotBack(c, s, b, refs, st, w);
      }
    case Elements(items) =>
      assert items[0..] == items;
      w1 := ItemsBack(c, x, i, 0, refs, st, w);
  }

  /** What a slot of another type points to is no vector's target. */
  lemma NotVectorTarget(c: Ctx, s: Slot, b: Addr)
    requires Fine(c) && s.owner in c.order && TargetOf(c.g, s) == Some(b) && !IsVector(c.cs, c.g, s)
    ensures !VectorTarget(c, b)
  {
    forall e: Slot | e.owner in c.order ensures !(IsVector(c.cs, c.g, e) && TargetOf(c.g, e) == Some(b)) {
      assert Unshared(c.cs, c.g, c.order, e, s);
    }
  }

  lemma FollowedGrows(w: Walk, s: Slot, w1: Walk)
    requires Grows(w.(done := w.done + {s}), w1, {}) && s.owner in w.busy
    ensures Grows(w, w1, {s.owner})
    ensures forall t :: t in w1.done && t.owner == s.owner ==> t in w.done || t == s
  {}

  /** A slot that is not of vector type. */
  lemma {:induction false} SlotBack(c: Ctx, s: Slot, b: Addr, refs: set<int>, st: State, w: Walk) returns (w1: Walk)
    requires s.owner in c.order && Ready(c, refs, st, w, Rank(c.order, s.owner)) && s.owner in w.busy
    requires TargetOf(c.g, s) == Some(b) && !IsVector(c.cs, c.g, s) && ListedNode(c.cs, c.g, b)
    ensures (var wr := WriteNode(c.cs, c.g, b, refs); var r := LoadPointer(c.cs, wr.out, st);
      && r.Some? && Inv(c, wr.refs, r.value.st, w1) && LooseOk(c, w1.loose) && Grows(w, w1, {s.owner})
      && r.value.value < |w1.src| && w1.src[r.value.value] == b)
    ensures forall t :: t in w1.done && t.owner == s.owner ==> t in w.done || t == s
    decreases Rank(c.order, s.owner), -1, 0
  {
    FollowOk(c, s, refs, st, w);
    var w0 := w.(done := w.done + {s});
    assert b !in w.loose by { NotVectorTarget(c, s, b); }
    w1 := PointerBack(c, b, refs, st, w0);
    FollowedGrows(w, s, w1);
  }

  /** A slot of vector type: its target cannot have been written before. */
  lemma {:induction false} VectorBack(c: Ctx, x: Addr, i: nat, b: Addr, refs: set<int>, st: State, w: Walk)
    returns (w1: Walk)
    requires x in c.order && Ready(c, refs, st, w, Rank(c.order, x)) && InHand(c, x, i, w) && FieldsLeft(w, x, i)
    requires i < |c.g[x].values| == |Fields(c, x)| && c.g[x].values[i] == Pointer(Some(b))
    requires Fields(c, x)[i].kind.VectorField? && Fits(c.cs, c.g, Fields(c, x)[i].kind, c.g[x].values[i])
    ensures (var wr := WriteNode(c.cs, c.g, b, refs); var r := LoadObject(c.cs, c.g[b].typ, wr.out, st);
      && r.Some? && Inv(c, wr.refs, r.value.st, w1) && LooseOk(c, w1.loose) && Grows(w, w1, {x})
      && FieldsLeft(w1, x, i + 1) && r.value.value < |w1.src| && w1.src[r.value.value] == b)
    decreases Rank(c.order, x), -1, 0
  {
    var s := Slot(x, i, 0);
    FollowOk(c, s, refs, st, w);
    var w0 := w.(done := w.done + {s});
    NotYetWritten(c, s, b, refs, st, w);
    w1 := ObjectBack(c, b, refs, st, w0);
    assert VectorTarget(c, b);
  }

  lemma NotYetWritten(c: Ctx, s: Slot, b: Addr, refs: set<int>, st: State, w: Walk)
    requires Fine(c) && Inv(c, refs, st, w) && s.owner in c.order && s !in w.done
    requires IsVector(c.cs, c.g, s) && TargetOf(c.g, s) == Some(b) && b < |c.g|
    ensures c.g[b].id !in refs
  {
    assert WrittenAt(c, refs, w, b);
    assert Downward(c.g, c.order, s);
    assert Rank(c.order, c.root) == |c.order| - 1;
    forall e: Slot | e in w.done ensures TargetOf(c.g, e) != Some(b) {
      OwnerListed(c, refs, st, w, e);
      assert Unshared(c.cs, c.g, c.order, s, e);
    }
    assert !Followed(c, w, b);
  }

  lemma OwnerListed(c: Ctx, refs: set<int>, st: State, w: Walk, e: Slot)
    requires Inv(c, refs, st, w) && e in w.done
    ensures e.owner in c.order
  {
    if e.owner in w.src {
      var y: nat :| y < |w.src| && w.src[y] == e.owner;
      assert BuiltAt(c, st, w, y);
    }
  }

  /** The addresses `as_` stand for those of `items` from the `k`-th on. */
  ghost predicate ItemsFrom(items: seq<Addr>, k: nat, as_: seq<Addr>, src: seq<Addr>)
  {
    k + |as_| == |items| && forall m :: 0 <= m < |as_| ==> as_[m] < |src| && src[as_[m]] == items[k + m]
  }

  lemma ItemsNext(items: seq<Addr>, k: nat, a: Addr, as_: seq<Addr>, src: seq<Addr>, src1: seq<Addr>)
    requires k < |items| && a < |src| && src[a] == items[k] && src <= src1 && ItemsFrom(items, k + 1, as_, src1)
    ensures ItemsFrom(items, k, [a] + as_, src1)
  {
    forall m | 0 <= m < |as_| + 1 ensures ([a] + as_)[m] < |src1| && src1[([a] + as_)[m]] == items[k + m] {
      if m > 0 { assert items[k + m] == items[k + 1 + (m - 1)]; }
    }
  }

  lemma {:induction false} ItemsBack(c: Ctx, x: Addr, i: nat, k: nat, refs: set<int>, st: State, w: Walk)
    returns (w1: Walk)
    requires x in c.order && Ready(c, refs, st, w, Rank(c.order, x)) && InHand(c, x, i, w) && ItemsLeft(w, x, i, k)
    requires i < |c.g[x].values| == |Fields(c, x)| && c.g[x].values[i].Elements?
    requires Fits(c.cs, c.g, Fields(c, x)[i].kind, c.g[x].values[i]) && k <= |c.g[x].values[i].items|
    ensures (var items := c.g[x].values[i].items; var wr := WriteItems(c.cs, c.g, items[k..], refs);
      var r := LoadItems(c.cs, wr.out, st);
      && r.Some? && Inv(c, wr.refs, r.value.st, w1) && LooseOk(c, w1.loose) && Grows(w, w1, {x})
      && FieldsLeft(w1, x, i + 1) && ItemsFrom(items, k, r.value.value, w1.src))
    decreases Rank(c.order, x), 0, |c.g[x].values[i].items| - k
  {
    var items := c.g[x].values[i].items;
    if k == |items| {
      w1 := w;
    } else {
      var w0 := ItemBack(c, x, i, k, refs, st, w);
      assert items[k..][1..] == items[k + 1..];
      var wr := WriteNode(c.cs, c.g, items[k], refs);
      var r := LoadPointer(c.cs, wr.out, st).value;
      w1 := ItemsBack(c, x, i, k + 1, wr.refs, r.st, w0);
      var rest := LoadItems(c.cs, WriteItems(c.cs, c.g, items[k + 1..], wr.refs).out, r.st).value.value;
      ItemsNext(items, k, r.value, rest, w0.src, w1.src);
    }
  }

  /** One element, and what is then left. */
  lemma {:induction false} ItemBack(c: Ctx, x: Addr, i: nat, k: nat, refs: set<int>, st: State, w: Walk)
    returns (w1: Walk)
    requires x in c.order && Ready(c, refs, st, w, Rank(c.order, x)) && InHand(c, x, i, w) && ItemsLeft(w, x, i, k)
    requires i < |c.g[x].values| == |Fields(c, x)| && c.g[x].values[i].Elements?
    requires Fits(c.cs, c.g, Fields(c, x)[i].kind, c.g[x].values[i]) && k < |c.g[x].values[i].items|
    ensures (var b := c.g[x].values[i].items[k]; var wr := WriteNode(c.cs, c.g, b, refs);
      var r := LoadPointer(c.cs, wr.out, st);
      && r.Some? && Ready(c, wr.refs, r.value.st, w1, Rank(c.order, x)) && LooseOk(c, w1.loose) && Grows(w, w1, {x})
      && InHand(c, x, i, w1) && ItemsLeft(w1, x, i, k + 1)
      && r.value.value < |w1.src| && w1.src[r.value.value] == b)
    decreases Rank(c.order, x), -1, 1
  {
    assert ListedNode(c.cs, c.g, c.g[x].values[i].items[k]);
    w1 := SlotBack(c, Slot(x, i, k), c.g[x].values[i].items[k], refs, st, w);
  }

  // ---------- the round trip ----------

  lemma {:induction false} LoadableRoundTrips(cs: Classes, g: Heap, root: Addr, order: seq<Addr>, currentId: int)
    requires WellTyped(cs, g) && ListedNode(cs, g, root) && Loadable(cs, g, root, order)
    ensures RoundTrips(cs, g, root, currentId)
  {
    var c := Ctx(cs, g, root, order);
    var st, w := State([], map[], currentId), Walk([], {}, {}, {});
    forall a | 0 <= a < |g| ensures WrittenAt(c, {}, w, a) {}
    assert Followed(c, w, root);
    assert root in order;
    var w1 := PointerBack(c, root, {}, st, w);
    var r := Load(cs, Write(cs, g, root), currentId).value;
    forall y | 0 <= y < |r.st.heap| ensures w1.src[y] < |g| && Copy(g[w1.src[y]], r.st.heap[y], w1.src) {
      assert BuiltAt(c, r.st, w1, y);
    }
    assert Isomorphic(g, root, r.st.heap, r.value, w1.src);
  }

  /** The slot of the copy that corresponds to one of the original. */
  lemma CopiedSlot(cs: Classes, g: Heap, h: Heap, src: seq<Addr>, y: Addr, s: Slot)
    requires |src| == |h| && y < |h| && src[y] == s.owner < |g| && Copy(g[s.owner], h[y], src)
    requires TargetOf(g, s).Some?
    ensures (var t := TargetOf(h, Slot(y, s.field, s.item));
      t.Some? && t.value < |src| && src[t.value] == TargetOf(g, s).value)
    ensures IsVector(cs, g, s) <==> IsVector(cs, h, Slot(y, s.field, s.item))
  {
    assert Linked(g[s.owner].values[s.field], h[y].values[s.field], src);
  }

  lemma IndexIs(src: seq<Addr>, y: nat)
    requires Distinct(src) && y < |src|
    ensures Rank(src, src[y]) == y
  {}

  lemma CopiedHaveNone(cs: Classes, g: Heap, root: Addr, currentId: int, src: seq<Addr>)
    requires WellTyped(cs, g) && root < |g|
    requires (var r := Load(cs, Write(cs, g, root), currentId);
      r.Some? && Isomorphic(g, root, r.value.st.heap, r.value.value, src))
    ensures forall a :: a in src ==> a < |g| && NoNull(g[a])
  {
    var h := Load(cs, Write(cs, g, root), currentId).value.st.heap;
    forall a | a in src ensures a < |g| && NoNull(g[a]) {
      var y := Rank(src, a);
      assert Copy(g[src[y]], h[y], src);
      NullStrings.LoadedHaveNone(cs, g, root, currentId, a, y);
    }
  }

  /** A copy without cycles is a copy of a graph without cycles. */
  lemma CopiedDescends(cs: Classes, g: Heap, root: Addr, h: Heap, top: Addr, src: seq<Addr>, s: Slot)
    requires Isomorphic(g, root, h, top, src) && forall t: Slot :: LoadedShape.TargetBelow(h, t)
    ensures Downward(g, src, s)
  {
    if s.owner in src && TargetOf(g, s).Some? {
      var y := Rank(src, s.owner);
      CopiedSlot(cs, g, h, src, y, s);
      var s1 := Slot(y, s.field, s.item);
      assert LoadedShape.TargetBelow(h, s1);
      IndexIs(src, TargetOf(h, s1).value);
    }
  }

  lemma CopiedUnshared(cs: Classes, g: Heap, root: Addr, h: Heap, top: Addr, src: seq<Addr>, s: Slot, t: Slot)
    requires Isomorphic(g, root, h, top, src) && forall s1: Slot, t1: Slot :: LoadedShape.Sole(cs, h, s1, t1)
    ensures Unshared(cs, g, src, s, t)
  {
    if s.owner in src && t.owner in src && TargetOf(g, s).Some? && TargetOf(g, s) == TargetOf(g, t) {
      var y, z := Rank(src, s.owner), Rank(src, t.owner);
      CopiedSlot(cs, g, h, src, y, s);
      CopiedSlot(cs, g, h, src, z, t);
      var s1, t1 := Slot(y, s.field, s.item), Slot(z, t.field, t.item);
      IndexIs(src, TargetOf(h, s1).value);
      IndexIs(src, TargetOf(h, t1).value);
      assert LoadedShape.Sole(cs, h, s1, t1);
    }
  }

  lemma {:induction false} RoundTripIsLoadable(cs: Classes, g: Heap, root: Addr, currentId: int, src: seq<Addr>)
    requires WellTyped(cs, g) && root < |g|
    requires (var r := Load(cs, Write(cs, g, root), currentId);
      r.Some? && Isomorphic(g, root, r.value.st.heap, r.value.value, src))
    ensures Loadable(cs, g, root, src)
  {
    var r := Load(cs, Write(cs, g, root), currentId).value;
    var vecs := LoadedShape.LoadedIsShaped(cs, Write(cs, g, root), currentId);
    CopiedHaveNone(cs, g, root, currentId, src);
    forall s: Slot ensures Downward(g, src, s) {
      CopiedDescends(cs, g, root, r.st.heap, r.value, src, s);
    }
    forall s: Slot, t: Slot ensures Unshared(cs, g, src, s, t) {
      CopiedUnshared(cs, g, root, r.st.heap, r.value, src, s, t);
    }
  }

  /** Loading what was written gives back the same graph, one object for one, if and only if the graph
      has no cycle, no string in it is null and every vector that a field of vector type points to is
      pointed to just once. */
  lemma {:induction false} RoundTripIff(cs: Classes, g: Heap, root: Addr, currentId: int)
    requires WellTyped(cs, g) && ListedNode(cs, g, root)
    ensures RoundTrips(cs, g, root, currentId) <==> exists order :: Loadable(cs, g, root, order)
  {
    if order :| Loadable(cs, g, root, order) {
      LoadableRoundTrips(cs, g, root, order, currentId);
    }
    if RoundTrips(cs, g, root, currentId) {
      var r := Load(cs, Write(cs, g, root), currentId).value;
      var src :| Isomorphic(g, root, r.st.heap, r.value, src);
      RoundTripIsLoadable(cs, g, root, currentId, src);
    }
  }
}
