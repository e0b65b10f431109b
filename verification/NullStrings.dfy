/** A null string is written, but where one is written, loading fails. */
module NullStrings {
  import opened Options
  import opened JsonValues
  import opened GraphJson
  import opened WrittenJson

  /** All ids that the loader has met are among `refs`. */
  ghost predicate Known(st: State, refs: set<int>)
  {
    && (forall k :: k in st.refs ==> k in refs)
    && (forall y :: 0 <= y < |st.heap| ==> st.heap[y].id in refs)
  }

  /** No object written between `refs` and `refs1` has a null string. */
  ghost predicate Clear(g: Heap, refs: set<int>, refs1: set<int>)
  {
    refs <= refs1 && forall b :: 0 <= b < |g| && g[b].id in refs1 && g[b].id !in refs ==> NoNull(g[b])
  }

  lemma {:induction false} PointerLoaded(cs: Classes, g: Heap, a: Addr, refs: set<int>, st: State)
    requires WellTyped(cs, g) && a < |g| && Known(st, refs)
    requires LoadPointer(cs, WriteNode(cs, g, a, refs).out, st).Some?
    ensures (var w := WriteNode(cs, g, a, refs); var r := LoadPointer(cs, w.out, st).value;
      Known(r.st, w.refs) && Clear(g, refs, w.refs))
    decreases Unwritten(g, refs), 0, 1
  {
    if g[a].id !in refs {
      WrittenHead(cs, g, a, refs);
      ObjectLoaded(cs, g, a, refs, st);
    }
  }

  lemma {:induction false} ObjectLoaded(cs: Classes, g: Heap, a: Addr, refs: set<int>, st: State)
    requires WellTyped(cs, g) && a < |g| && Known(st, refs) && g[a].typ in cs
    requires LoadObject(cs, g[a].typ, WriteNode(cs, g, a, refs).out, st).Some?
    ensures (var w := WriteNode(cs, g, a, refs); var r := LoadObject(cs, g[a].typ, w.out, st).value;
      Known(r.st, w.refs) && Clear(g, refs, w.refs))
    decreases Unwritten(g, refs), 0, 0
  {
    var o := g[a];
    assert ObjectOk(cs, g, o);
    var st0 := st.(currentId := if o.id >= st.currentId then o.id + 1 else st.currentId);
    var fs := cs[o.typ].fields;
    assert FieldsOk(cs, fs);
    if o.id in refs {
      ReferenceLoaded(cs, fs, o.id, st0);
    } else {
      assert a in Unwritten(g, refs) && a !in Unwritten(g, refs + {o.id});
      var pre := [IdEntry(o.id), TypeEntry(o.typ)];
      WriteNodeIs(cs, g, a, refs);
      WrittenHead(cs, g, a, refs);
      HeadUnnamed(cs, fs, o.id, o.typ);
      assert fs[0..] == fs && o.values[0..] == o.values;
      FieldsLoaded(cs, g, fs, o.values, 0, pre, refs + {o.id}, st0);
      OnlyOne(cs, g, a, refs, WriteNode(cs, g, a, refs).refs);
    }
  }

  lemma OnlyOne(cs: Classes, g: Heap, a: Addr, refs: set<int>, refs1: set<int>)
    requires WellTyped(cs, g) && a < |g| && NoNull(g[a]) && Clear(g, refs + {g[a].id}, refs1)
    ensures Clear(g, refs, refs1)
  {
    forall b | 0 <= b < |g| && g[b].id in refs1 && g[b].id !in refs ensures NoNull(g[b]) {
      if b < a { assert IdsDiffer(g, b, a); }
      if a < b { assert IdsDiffer(g, a, b); }
    }
  }

  /** From an id alone every field gets its default. */
  lemma {:induction false} ReferenceLoaded(cs: Classes, fs: seq<Field>, id: int, st: State)
    requires forall i :: 0 <= i < |fs| ==> fs[i].name != "Node_ID"
    ensures (var r := LoadFields(cs, fs, JObject([IdEntry(id)]), st); r.Some? && r.value.st == st)
  {
    if fs != [] { ReferenceLoaded(cs, fs[1..], id, st); }
  }

  lemma {:induction false} FieldsLoaded(cs: Classes, g: Heap, fs: seq<Field>, vs: seq<Value>, i: nat, pre: seq<Entry>,
                                        refs: set<int>, st: State)
    requires WellTyped(cs, g) && FieldsOk(cs, fs) && i <= |fs| == |vs| && Unnamed(pre, fs, i) && Known(st, refs)
    requires forall k :: 0 <= k < |vs| ==> Fits(cs, g, fs[k].kind, vs[k])
    requires (var w := WriteFields(cs, g, fs[i..], vs[i..], refs);
      LoadFields(cs, fs[i..], JObject(pre + w.out), st).Some?)
    ensures (var w := WriteFields(cs, g, fs[i..], vs[i..], refs);
      var r := LoadFields(cs, fs[i..], JObject(pre + w.out), st).value;
      Known(r.st, w.refs) && Clear(g, refs, w.refs) && forall k :: i <= k < |vs| ==> vs[k] != Plain(JNull))
    decreases Unwritten(g, refs), 3, |fs| - i
  {
    if i < |fs| {
      var j := JObject(pre + WriteFields(cs, g, fs[i..], vs[i..], refs).out);
      assert NoKey(pre, fs[i].name);
      FieldsStep(cs, g, fs, vs, i, pre, refs, j);
      var v := WriteValue(cs, g, fs[i].kind, vs[i], refs);
      assert fs[i..][1..] == fs[i + 1..];
      var f := LoadField(cs, fs[i], j, st);
      assert f.Some?;
      ValueLoaded(cs, g, fs[i].kind, vs[i], refs, st);
      StillUnnamed(cs, pre, fs, i, v.out);
      assert Unwritten(g, v.refs) <= Unwritten(g, refs);
      FieldsLoaded(cs, g, fs, vs, i + 1, pre + FirstEntry(fs[i].name, v.out), v.refs, f.value.st);
    }
  }

  lemma {:induction false} ValueLoaded(cs: Classes, g: Heap, k: Kind, v: Value, refs: set<int>, st: State)
    requires WellTyped(cs, g) && Fits(cs, g, k, v) && Known(st, refs)
    requires (var w := WriteValue(cs, g, k, v, refs); w.out.Some? ==> LoadValue(cs, k, w.out.value, st).Some?)
    ensures v != Plain(JNull)
    ensures (var w := WriteValue(cs, g, k, v, refs);
      var st1 := if w.out.Some? then LoadValue(cs, k, w.out.value, st).value.st else st;
      Known(st1, w.refs) && Clear(g, refs, w.refs))
    decreases Unwritten(g, refs), 2, 0
  {
    match v
    case Plain(_) =>
    case Pointer(None) =>
    case Pointer(Some(b)) =>
      if k.VectorField? { ObjectLoaded(cs, g, b, refs, st); } else { PointerLoaded(cs, g, b, refs, st); }
    case Elements(items) => ItemsLoaded(cs, g, items, refs, st);
  }

  lemma {:induction false} ItemsLoaded(cs: Classes, g: Heap, items: seq<Addr>, refs: set<int>, st: State)
    requires WellTyped(cs, g) && Known(st, refs) && forall i :: 0 <= i < |items| ==> ListedNode(cs, g, items[i])
    requires LoadItems(cs, WriteItems(cs, g, items, refs).out, st).Some?
    ensures (var w := WriteItems(cs, g, items, refs); var r := LoadItems(cs, w.out, st).value;
      Known(r.st, w.refs) && Clear(g, refs, w.refs))
    decreases Unwritten(g, refs), 1, |items|
  {
    if items != [] {
      assert ListedNode(cs, g, items[0]);
      var w := WriteNode(cs, g, items[0], refs);
      assert WriteItems(cs, g, items, refs).out[1..] == WriteItems(cs, g, items[1..], w.refs).out;
      PointerLoaded(cs, g, items[0], refs, st);
      assert Unwritten(g, w.refs) <= Unwritten(g, refs);
      ItemsLoaded(cs, g, items[1..], w.refs, LoadPointer(cs, w.out, st).value.st);
    }
  }

  /** If a written graph can be loaded at all, no object of which a copy was loaded has a null string. */
  lemma LoadedHaveNone(cs: Classes, g: Heap, root: Addr, currentId: int, a: Addr, y: Addr)
    requires WellTyped(cs, g) && root < |g| && a < |g| && Load(cs, Write(cs, g, root), currentId).Some?
    requires (var h := Load(cs, Write(cs, g, root), currentId).value.st.heap; y < |h| && h[y].id == g[a].id)
    ensures NoNull(g[a])
  {
    PointerLoaded(cs, g, root, {}, State([], map[], currentId));
  }
}
