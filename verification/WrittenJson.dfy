/** Where in the JSON of a node its fields are found again. */
module WrittenJson {
  import opened Options
  import opened JsonValues
  import opened GraphJson

  lemma {:induction false} FindSkips(pre: seq<Entry>, rest: seq<Entry>, key: string)
    requires NoKey(pre, key)
    ensures Find(pre + rest, key) == |pre| + Find(rest, key)
  {
    if pre == [] {
      assert pre + rest == rest;
    } else {
      assert (pre + rest)[1..] == pre[1..] + rest;
      FindSkips(pre[1..], rest, key);
    }
  }

  lemma NotFound(entries: seq<Entry>, key: string)
    requires NoKey(entries, key)
    ensures Find(entries, key) == |entries|
  {}

  lemma {:induction false} WrittenKeys(cs: Classes, g: Heap, fs: seq<Field>, vs: seq<Value>, refs: set<int>,
                                       key: string)
    requires WellTyped(cs, g) && |fs| == |vs|
    requires forall i :: 0 <= i < |vs| ==> Fits(cs, g, fs[i].kind, vs[i])
    requires forall i :: 0 <= i < |fs| ==> fs[i].name != key
    ensures NoKey(WriteFields(cs, g, fs, vs, refs).out, key)
    decreases |fs|
  {
    if fs != [] {
      WrittenKeys(cs, g, fs[1..], vs[1..], WriteValue(cs, g, fs[0].kind, vs[0], refs).refs, key);
    }
  }

  lemma WriteNodeIs(cs: Classes, g: Heap, a: Addr, refs: set<int>)
    requires WellTyped(cs, g) && a < |g| && g[a].id !in refs
    ensures g[a].typ in cs && ObjectOk(cs, g, g[a])
    ensures (var o := g[a]; var w := WriteFields(cs, g, cs[o.typ].fields, o.values, refs + {o.id});
      WriteNode(cs, g, a, refs) == Written(JObject([IdEntry(o.id), TypeEntry(o.typ)] + w.out), w.refs))
  {}

  lemma WrittenHead(cs: Classes, g: Heap, a: Addr, refs: set<int>)
    requires WellTyped(cs, g) && a < |g| && g[a].id !in refs
    ensures (var j := WriteNode(cs, g, a, refs).out;
      EntryOf(j, "Node_ID") == Some(JNumber(g[a].id)) && EntryOf(j, "Node_Type") == Some(JString(g[a].typ)))
  {
    var j := WriteNode(cs, g, a, refs).out;
    assert j.entries[0] == IdEntry(g[a].id) && j.entries[1] == TypeEntry(g[a].typ);
    assert Find(j.entries, "Node_Type") == 1 + Find(j.entries[1..], "Node_Type");
  }

  /** The entry of the first field, among all entries of the object. */
  ghost function FirstEntry(name: string, out: Option<Json>): seq<Entry>
  {
    if out.None? then [] else [Entry(name, out.value)]
  }

  lemma Looked(pre: seq<Entry>, name: string, out: Option<Json>, rest: seq<Entry>)
    requires NoKey(pre, name) && NoKey(rest, name)
    ensures EntryOf(JObject(pre + (FirstEntry(name, out) + rest)), name) == out
  {
    FindSkips(pre, FirstEntry(name, out) + rest, name);
    if out.None? {
      assert FirstEntry(name, out) + rest == rest;
      NotFound(rest, name);
    }
  }

  /** The fields from the `i`-th on have no entry in `pre`. */
  ghost predicate Unnamed(pre: seq<Entry>, fs: seq<Field>, i: nat)
  {
    forall k :: i <= k < |fs| ==> NoKey(pre, fs[k].name)
  }

  lemma StillUnnamed(cs: Classes, pre: seq<Entry>, fs: seq<Field>, i: nat, out: Option<Json>)
    requires i < |fs| && FieldsOk(cs, fs) && Unnamed(pre, fs, i)
    ensures Unnamed(pre + FirstEntry(fs[i].name, out), fs, i + 1)
  {
    forall k | i + 1 <= k < |fs| ensures NoKey(pre + FirstEntry(fs[i].name, out), fs[k].name) {
      assert NoKey(pre, fs[k].name);
    }
  }

  /** Behind the id and the class, no entry is a field's. */
  lemma HeadUnnamed(cs: Classes, fs: seq<Field>, id: int, typ: string)
    requires FieldsOk(cs, fs)
    ensures Unnamed([IdEntry(id), TypeEntry(typ)], fs, 0)
  {}

  /** Where the next field's entry is in the text. */
  lemma FieldsStep(cs: Classes, g: Heap, fs: seq<Field>, vs: seq<Value>, i: nat, pre: seq<Entry>, refs: set<int>,
                   j: Json)
    requires WellTyped(cs, g) && FieldsOk(cs, fs) && i < |vs| == |fs| && NoKey(pre, fs[i].name)
    requires forall k :: 0 <= k < |vs| ==> Fits(cs, g, fs[k].kind, vs[k])
    requires j == JObject(pre + WriteFields(cs, g, fs[i..], vs[i..], refs).out)
    ensures (var v := WriteValue(cs, g, fs[i].kind, vs[i], refs);
      var rest := WriteFields(cs, g, fs[i + 1..], vs[i + 1..], v.refs);
      && WriteFields(cs, g, fs[i..], vs[i..], refs) == Written(FirstEntry(fs[i].name, v.out) + rest.out, rest.refs)
      && pre + (FirstEntry(fs[i].name, v.out) + rest.out) == (pre + FirstEntry(fs[i].name, v.out)) + rest.out
      && EntryOf(j, fs[i].name) == v.out)
  {
    assert fs[i..][1..] == fs[i + 1..] && vs[i..][1..] == vs[i + 1..];
    var v := WriteValue(cs, g, fs[i].kind, vs[i], refs);
    var rest := WriteFields(cs, g, fs[i + 1..], vs[i + 1..], v.refs);
    WrittenKeys(cs, g, fs[i + 1..], vs[i + 1..], v.refs, fs[i].name);
    assert FirstEntry(fs[i].name, v.out) + rest.out == WriteFields(cs, g, fs[i..], vs[i..], refs).out;
    Looked(pre, fs[i].name, v.out, rest.out);
  }

  lemma LoadFieldsIs(cs: Classes, fs: seq<Field>, i: nat, j: Json, st: State, f: Loaded<Value>, r: Loaded<seq<Value>>)
    requires i < |fs| && LoadField(cs, fs[i], j, st) == Some(f) && LoadFields(cs, fs[i + 1..], j, f.st) == Some(r)
    ensures LoadFields(cs, fs[i..], j, st) == Some(Loaded([f.value] + r.value, r.st))
  {
    assert fs[i..][1..] == fs[i + 1..];
  }

  lemma LoadObjectIs(cs: Classes, typ: string, j: Json, st: State, id: int, r: Loaded<seq<Value>>)
    requires typ in cs && id >= 0 && EntryOf(j, "Node_ID") == Some(JNumber(id))
    requires LoadFields(cs, cs[typ].fields, j, st.(currentId := if id >= st.currentId then id + 1 else st.currentId))
          == Some(r)
    ensures LoadObject(cs, typ, j, st)
         == Some(Loaded(|r.st.heap|, r.st.(heap := r.st.heap + [Object(id, typ, r.value)])))
  {}
}
