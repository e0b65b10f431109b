/** The layout that the generator gives to a graph's JSON, and the round trip of a graph through text. */
module JsonLayout {
  import opened Options
  import opened Sequences
  import opened JsonValues
  import opened JsonText
  import opened GraphJson
  import opened WrittenJson
  import GraphJsonProof

  const TABSZ := 2

  function Spaces(n: nat): (s: string)
    ensures AllSpace(s)
  {
    seq(n, i => ' ')
  }

  function Line(indent: nat): (s: string)
    ensures AllSpace(s)
  {
    "\n" + Spaces(indent * TABSZ)
  }

  /** `j` as it is written inside a line indented by `indent`. */
  function Layout(j: Json, indent: nat): (d: Doc)
    decreases j, 0
  {
    match j
    case JNull => DNull
    case JBool(b) => DBool(b)
    case JNumber(n) => DNumber(n)
    case JString(s) => DString(s)
    case JVector(items) => DVector("", LayoutItems(items, indent))
    case JObject(entries) => DObject("", LayoutEntries(entries, 0, indent))
  }

  function End(last: bool, indent: nat): (s: string)
    ensures AllSpace(s)
  {
    if last then Line(indent) else ""
  }

  /** A blank follows the comma behind the id of a node. */
  function Start(i: nat, indent: nat): (s: string)
    ensures AllSpace(s)
  {
    if i == 1 then " " + Line(indent) else Line(indent)
  }

  function LayoutItems(items: seq<Json>, indent: nat): (ds: seq<DItem>)
    ensures |ds| == |items|
    decreases items, 1, |items|
  {
    if items == [] then []
    else
      var first := DItem(Line(indent + 1), Layout(items[0], indent + 1), End(|items| == 1, indent));
      [first] + LayoutItems(items[1..], indent)
  }

  function LayoutEntry(e: Entry, i: nat, last: bool, indent: nat): (d: DEntry)
    ensures d.key == e.key
    decreases e, 1
  {
    DEntry(Start(i, indent + 1), e.key, " ", " ", Layout(e.value, indent + 1), End(last, indent))
  }

  /** The entries of an object from the `i`-th on. */
  function LayoutEntries(entries: seq<Entry>, i: nat, indent: nat): (ds: seq<DEntry>)
    ensures |ds| == |entries| && forall k :: 0 <= k < |ds| ==> ds[k].key == entries[k].key
    decreases entries, 1, |entries|
  {
    if entries == [] then []
    else [LayoutEntry(entries[0], i, |entries| == 1, indent)] + LayoutEntries(entries[1..], i + 1, indent)
  }

  // ---------- the layout is a text of the value ----------

  /** No string holds a double quote and no object repeats a key. */
  ghost predicate Clean(j: Json)
    decreases j, 0
  {
    match j
    case JString(s) => NoQuote(s)
    case JVector(items) => AllClean(items)
    case JObject(entries) => EntriesClean(entries) && DistinctKeys(entries)
    case _ => true
  }

  ghost predicate AllClean(items: seq<Json>)
    decreases items, 1
  {
    forall i :: 0 <= i < |items| ==> Clean(items[i])
  }

  ghost predicate EntryClean(e: Entry)
    decreases e, 1
  {
    NoQuote(e.key) && Clean(e.value)
  }

  ghost predicate EntriesClean(entries: seq<Entry>)
    decreases entries, 2
  {
    forall i :: 0 <= i < |entries| ==> EntryClean(entries[i])
  }

  lemma {:induction false} LayoutOk(j: Json, indent: nat)
    requires Clean(j)
    ensures Proper(Layout(j, indent)) && ValueOf(Layout(j, indent)) == j
    decreases j, 0
  {
    match j
    case JVector(items) => ItemsOk(items, indent);
    case JObject(entries) => EntriesOk(entries, 0, indent);
    case _ =>
  }

  lemma {:induction false} ItemsOk(items: seq<Json>, indent: nat)
    requires AllClean(items)
    ensures (var ds := LayoutItems(items, indent);
      ItemValues(ds) == items && forall k :: 0 <= k < |ds| ==> ProperItem(ds[k]))
    decreases items, 1, |items|
  {
    if items != [] {
      LayoutOk(items[0], indent + 1);
      ItemsOk(items[1..], indent);
    }
  }

  lemma {:induction false} EntriesOk(entries: seq<Entry>, i: nat, indent: nat)
    requires EntriesClean(entries)
    ensures (var ds := LayoutEntries(entries, i, indent);
      EntryValues(ds) == entries && forall k :: 0 <= k < |ds| ==> ProperEntry(ds[k]))
    decreases entries, 1, |entries|
  {
    if entries != [] {
      assert EntryClean(entries[0]);
      LayoutOk(entries[0].value, indent + 1);
      forall k | 0 <= k < |entries| - 1 ensures EntryClean(entries[1..][k]) {
        assert EntryClean(entries[k + 1]);
      }
      EntriesOk(entries[1..], i + 1, indent);
      var rest := LayoutEntries(entries[1..], i + 1, indent);
      var e := LayoutEntry(entries[0], i, |entries| == 1, indent);
      assert LayoutEntries(entries, i, indent) == [e] + rest;
      assert ProperEntry(e);
      assert EntryValues([e] + rest) == [entries[0]] + EntryValues(rest);
    }
  }

  // ---------- what is read is clean ----------

  lemma {:induction false} UpToQuoteIsClean(s: string)
    ensures Clean(UpToQuote(s).value)
    decreases |s|
  {
    if s != [] && s[0] != '"' {
      UpToQuoteIsClean(s[1..]);
      assert UpToQuote(s).value.text == [s[0]] + UpToQuote(s[1..]).value.text;
    }
  }

  /** Whatever the text, no string read from it holds a double quote and no object repeats a key. */
  lemma {:induction false} ParseIsClean(s: string)
    ensures Parse(s).Some? ==> Clean(Parse(s).value.value)
    decreases |s|, 0, 0
  {
    var t := Skip(s);
    if t != [] {
      var rest := t[1..];
      if t[0] == '{' {
        EntriesAreClean([], rest);
      } else if t[0] == '[' {
        ItemsAreClean([], rest);
      } else if t[0] == '"' {
        UpToQuoteIsClean(rest);
      }
    }
  }

  lemma {:induction false} EntriesAreClean(entries: seq<Entry>, s: string)
    requires EntriesClean(entries) && DistinctKeys(entries)
    ensures ParseEntries(entries, s).Some? ==> Clean(ParseEntries(entries, s).value.value)
    decreases |s|, 1
  {
    var t := Skip(s);
    if t != [] && t[0] != '}' {
      var e := ParseEntry(t);
      if e.Some? {
        EntryIsClean(t);
        PutIsClean(entries, e.value.key, e.value.value);
        var after := Skip(e.value.rest);
        if after != [] && after[0] != '}' {
          EntriesAreClean(Put(entries, e.value.key, e.value.value), after[1..]);
        }
      }
    }
  }

  lemma {:induction false} EntryIsClean(s: string)
    ensures (var e := ParseEntry(s); e.Some? ==> NoQuote(e.value.key) && Clean(e.value.value))
    decreases |s|, 0, 1
  {
    ParseIsClean(s);
    var key := Parse(s);
    if key.Some? && key.value.value.JString? {
      var colon := Skip(key.value.rest);
      if colon != [] { ParseIsClean(colon[1..]); }
    }
  }

  lemma PutIsClean(entries: seq<Entry>, key: string, v: Json)
    requires EntriesClean(entries) && DistinctKeys(entries) && NoQuote(key) && Clean(v)
    ensures EntriesClean(Put(entries, key, v)) && DistinctKeys(Put(entries, key, v))
  {
    var es := Put(entries, key, v);
    assert EntryClean(Entry(key, v));
    forall i | 0 <= i < |es| ensures EntryClean(es[i]) {
      if i < |entries| { assert EntryClean(entries[i]); }
    }
  }

  lemma {:induction false} ItemsAreClean(items: seq<Json>, s: string)
    requires AllClean(items)
    ensures ParseItems(items, s).Some? ==> Clean(ParseItems(items, s).value.value)
    decreases |s|, 1
  {
    var t := Skip(s);
    if t != [] && t[0] != ']' {
      ParseIsClean(t);
      var v := Parse(t);
      if v.Some? {
        var after := Skip(v.value.rest);
        assert AllClean(items + [v.value.value]);
        if after != [] && after[0] != ']' { ItemsAreClean(items + [v.value.value], after[1..]); }
      }
    }
  }

  /** A value comes back from the generator's text if and only if it is clean. */
  lemma {:induction false} TextBackIff(j: Json, rest: string)
    requires j.JNumber? ==> EndsNumber(rest)
    ensures Parse(Text(Layout(j, 0)) + rest) == Some(Parsed(j, rest)) <==> Clean(j)
  {
    ParseIsClean(Text(Layout(j, 0)) + rest);
    if Clean(j) {
      LayoutOk(j, 0);
      ParsesBack(Layout(j, 0), rest);
    }
  }

  // ---------- what is loaded holds no quotes ----------

  ghost predicate ValueQuoteFree(v: Value)
  {
    v.Plain? && v.json.JString? ==> NoQuote(v.json.text)
  }

  ghost predicate ValuesQuoteFree(vs: seq<Value>)
  {
    forall i :: 0 <= i < |vs| ==> ValueQuoteFree(vs[i])
  }

  ghost predicate HeapQuoteFree(h: Heap)
  {
    forall y :: 0 <= y < |h| ==> ValuesQuoteFree(h[y].values)
  }

  lemma EntryOfIsClean(j: Json, key: string)
    requires Clean(j)
    ensures EntryOf(j, key).Some? ==> Clean(EntryOf(j, key).value)
  {
    if EntryOf(j, key).Some? { assert EntryClean(j.entries[Find(j.entries, key)]); }
  }

  lemma {:induction false} PointerUnquoted(cs: Classes, j: Json, st: State)
    requires Clean(j) && HeapQuoteFree(st.heap)
    ensures (var r := LoadPointer(cs, j, st); r.Some? ==> HeapQuoteFree(r.value.st.heap))
    decreases j, 1
  {
    var t := EntryOf(j, "Node_Type");
    if t.Some? && t.value.JString? && t.value.text in cs { ObjectUnquoted(cs, t.value.text, j, st); }
  }

  lemma {:induction false} ObjectUnquoted(cs: Classes, typ: string, j: Json, st: State)
    requires Clean(j) && HeapQuoteFree(st.heap) && typ in cs
    ensures (var r := LoadObject(cs, typ, j, st); r.Some? ==> HeapQuoteFree(r.value.st.heap))
    decreases j, 0, 1
  {
    var id := OwnId(j, st.currentId);
    if id.Some? {
      FieldsUnquoted(cs, cs[typ].fields, j,
                     st.(currentId := if id.value >= st.currentId then id.value + 1 else st.currentId));
    }
  }

  lemma {:induction false} FieldsUnquoted(cs: Classes, fs: seq<Field>, j: Json, st: State)
    requires Clean(j) && HeapQuoteFree(st.heap)
    ensures (var r := LoadFields(cs, fs, j, st);
      r.Some? ==> HeapQuoteFree(r.value.st.heap) && ValuesQuoteFree(r.value.value))
    decreases j, 0, 0, |fs|
  {
    if fs != [] {
      EntryOfIsClean(j, fs[0].name);
      var e := EntryOf(j, fs[0].name);
      if e.Some? { ValueUnquoted(cs, fs[0].kind, e.value, st); }
      var f := LoadField(cs, fs[0], j, st);
      if f.Some? { FieldsUnquoted(cs, fs[1..], j, f.value.st); }
    }
  }

  lemma {:induction false} ValueUnquoted(cs: Classes, k: Kind, j: Json, st: State)
    requires Clean(j) && HeapQuoteFree(st.heap)
    ensures (var r := LoadValue(cs, k, j, st);
      r.Some? ==> HeapQuoteFree(r.value.st.heap) && ValueQuoteFree(r.value.value))
    decreases j, 2
  {
    match k
    case PlainField =>
    case PointerField(_) => PointerUnquoted(cs, j, st);
    case VectorField(typ, _) => if typ in cs { ObjectUnquoted(cs, typ, j, st); }
    case ElementsField => if j.JVector? { ItemsUnquoted(cs, j.items, st); }
  }

  lemma {:induction false} ItemsUnquoted(cs: Classes, js: seq<Json>, st: State)
    requires AllClean(js) && HeapQuoteFree(st.heap)
    ensures (var r := LoadItems(cs, js, st); r.Some? ==> HeapQuoteFree(r.value.st.heap))
    decreases js, 0
  {
    if js != [] {
      PointerUnquoted(cs, js[0], st);
      var p := LoadPointer(cs, js[0], st);
      if p.Some? { ItemsUnquoted(cs, js[1..], p.value.st); }
    }
  }

  // ---------- what is written is clean ----------

  /** No name of a class or a field holds a double quote. */
  ghost predicate NamesQuoteFree(cs: Classes)
  {
    forall c :: c in cs ==> NoQuote(c) && FieldNamesQuoteFree(cs[c].fields)
  }

  ghost predicate FieldNamesQuoteFree(fs: seq<Field>)
  {
    forall i :: 0 <= i < |fs| ==> NoQuote(fs[i].name)
  }

  /** No string in the objects of `region` holds a double quote. */
  ghost predicate QuoteFree(g: Heap, region: seq<Addr>)
  {
    forall a :: a in region ==> a < |g| && ValuesQuoteFree(g[a].values)
  }

  ghost predicate Inside(g: Heap, region: seq<Addr>, s: Slot)
  {
    s.owner in region && TargetOf(g, s).Some? ==> TargetOf(g, s).value in region
  }

  /** Nothing in `region` points out of it, and its strings hold no quotes. */
  ghost predicate CleanRegion(cs: Classes, g: Heap, region: seq<Addr>)
  {
    && WellTyped(cs, g) && NamesQuoteFree(cs) && QuoteFree(g, region)
    && forall s: Slot :: Inside(g, region, s)
  }

  lemma {:induction false} NodeClean(cs: Classes, g: Heap, region: seq<Addr>, a: Addr, refs: set<int>)
    requires CleanRegion(cs, g, region) && a in region
    ensures Clean(WriteNode(cs, g, a, refs).out)
    decreases Unwritten(g, refs), 0, 0
  {
    var o := g[a];
    assert NoQuote(o.typ) by { assert ObjectOk(cs, g, o); }
    HeadClean(o);
    if o.id in refs {
      var es := [IdEntry(o.id)];
      assert EntriesClean(es) && DistinctKeys(es);
    } else {
      assert a in Unwritten(g, refs) && a !in Unwritten(g, refs + {o.id});
      assert ObjectOk(cs, g, o) && FieldsOk(cs, cs[o.typ].fields);
      assert o.values[0..] == o.values && cs[o.typ].fields[0..] == cs[o.typ].fields;
      FieldsClean(cs, g, region, a, 0, refs + {o.id});
      var w := WriteFields(cs, g, cs[o.typ].fields, o.values, refs + {o.id});
      WrittenKeys(cs, g, cs[o.typ].fields, o.values, refs + {o.id}, "Node_ID");
      WrittenKeys(cs, g, cs[o.typ].fields, o.values, refs + {o.id}, "Node_Type");
      ObjectClean(o, w.out);
    }
  }

  lemma HeadClean(o: Object)
    requires NoQuote(o.typ)
    ensures EntryClean(IdEntry(o.id)) && EntryClean(TypeEntry(o.typ))
  {
    var e, f := IdEntry(o.id), TypeEntry(o.typ);
    assert NoQuote("Node_ID") && NoQuote("Node_Type");
    assert e.key == "Node_ID" && f.key == "Node_Type";
    assert Clean(e.value);
    assert Clean(f.value);
  }

  lemma ObjectClean(o: Object, es: seq<Entry>)
    requires NoQuote(o.typ) && EntriesClean(es) && DistinctKeys(es)
    requires NoKey(es, "Node_ID") && NoKey(es, "Node_Type")
    ensures Clean(JObject([IdEntry(o.id), TypeEntry(o.typ)] + es))
  {
    assert NoQuote("Node_ID") && NoQuote("Node_Type");
    assert "Node_ID"[5] != "Node_Type"[5];
    HeadClean(o);
    var all := [IdEntry(o.id), TypeEntry(o.typ)] + es;
    forall i | 0 <= i < |all| ensures EntryClean(all[i]) {
      if i >= 2 { assert EntryClean(es[i - 2]); }
    }
  }

  lemma {:induction false} FieldsClean(cs: Classes, g: Heap, region: seq<Addr>, a: Addr, i: nat, refs: set<int>)
    requires CleanRegion(cs, g, region) && a in region && g[a].typ in cs
    requires (var fs, vs := cs[g[a].typ].fields, g[a].values;
      && FieldsOk(cs, fs) && FieldNamesQuoteFree(fs) && i <= |fs| == |vs|
      && forall k :: 0 <= k < |vs| ==> Fits(cs, g, fs[k].kind, vs[k]))
    ensures (var es := WriteFields(cs, g, cs[g[a].typ].fields[i..], g[a].values[i..], refs).out;
      EntriesClean(es) && DistinctKeys(es))
    decreases Unwritten(g, refs), 3, |g[a].values| - i
  {
    var fs, vs := cs[g[a].typ].fields, g[a].values;
    if i < |fs| {
      ValueClean(cs, g, region, a, i, refs);
      var w := WriteValue(cs, g, fs[i].kind, vs[i], refs);
      assert Unwritten(g, w.refs) <= Unwritten(g, refs);
      FieldsClean(cs, g, region, a, i + 1, w.refs);
      assert fs[i..][1..] == fs[i + 1..] && vs[i..][1..] == vs[i + 1..];
      WrittenKeys(cs, g, fs[i + 1..], vs[i + 1..], w.refs, fs[i].name);
      if w.out.Some? {
        MoreClean(Entry(fs[i].name, w.out.value), WriteFields(cs, g, fs[i + 1..], vs[i + 1..], w.refs).out);
      }
    }
  }

  lemma MoreClean(e: Entry, es: seq<Entry>)
    requires EntryClean(e) && EntriesClean(es) && DistinctKeys(es) && NoKey(es, e.key)
    ensures EntriesClean([e] + es) && DistinctKeys([e] + es)
  {
    forall i | 0 <= i < |es| + 1 ensures EntryClean(([e] + es)[i]) {
      if i > 0 { assert EntryClean(es[i - 1]); }
    }
  }

  lemma {:induction false} ValueClean(cs: Classes, g: Heap, region: seq<Addr>, a: Addr, i: nat, refs: set<int>)
    requires CleanRegion(cs, g, region) && a in region && g[a].typ in cs
    requires i < |cs[g[a].typ].fields| == |g[a].values|
    requires Fits(cs, g, cs[g[a].typ].fields[i].kind, g[a].values[i])
    ensures (var w := WriteValue(cs, g, cs[g[a].typ].fields[i].kind, g[a].values[i], refs);
      w.out.Some? ==> Clean(w.out.value))
    decreases Unwritten(g, refs), 2, 0
  {
    match g[a].values[i]
    case Plain(_) => assert ValueQuoteFree(g[a].values[i]);
    case Pointer(None) =>
    case Pointer(Some(b)) =>
      assert Inside(g, region, Slot(a, i, 0));
      NodeClean(cs, g, region, b, refs);
    case Elements(items) =>
      forall k | 0 <= k < |items| ensures items[k] in region {
        assert Inside(g, region, Slot(a, i, k));
      }
      ItemsClean(cs, g, region, items, refs);
  }

  lemma {:induction false} ItemsClean(cs: Classes, g: Heap, region: seq<Addr>, items: seq<Addr>, refs: set<int>)
    requires CleanRegion(cs, g, region)
    requires forall i :: 0 <= i < |items| ==> ListedNode(cs, g, items[i]) && items[i] in region
    ensures AllClean(WriteItems(cs, g, items, refs).out)
    decreases Unwritten(g, refs), 1, |items|
  {
    if items != [] {
      assert ListedNode(cs, g, items[0]) && items[0] in region;
      NodeClean(cs, g, region, items[0], refs);
      var w := WriteNode(cs, g, items[0], refs);
      assert Unwritten(g, w.refs) <= Unwritten(g, refs);
      ItemsClean(cs, g, region, items[1..], w.refs);
    }
  }

  // ---------- the round trip through text ----------

  /** The text of a graph, read up to whatever follows it. */
  function ReadText(cs: Classes, text: string, currentId: int): Option<Loaded<Addr>>
  {
    match Parse(text)
    case Some(p) => Load(cs, p.value, currentId)
    case None => None
  }

  /** If the region is clean, the text stands for the value that was written. */
  lemma {:induction false} TextIsRead(cs: Classes, g: Heap, region: seq<Addr>, root: Addr, currentId: int, rest: string)
    requires CleanRegion(cs, g, region) && root in region && ListedNode(cs, g, root)
    ensures ReadText(cs, Text(Layout(Write(cs, g, root), 0)) + rest, currentId)
      == Load(cs, Write(cs, g, root), currentId)
  {
    var j := Write(cs, g, root);
    NodeClean(cs, g, region, root, {});
    TextBackIff(j, rest);
  }

  /** What is restored from any text holds no quotes, and nothing points out of it. */
  lemma RestoredIsClean(cs: Classes, g: Heap, root: Addr, text: string, currentId: int, src: seq<Addr>)
    requires WellTyped(cs, g) && NamesQuoteFree(cs)
    requires (var r := ReadText(cs, text, currentId);
      r.Some? && Isomorphic(g, root, r.value.st.heap, r.value.value, src))
    ensures CleanRegion(cs, g, src) && root in src
  {
    var h := ReadText(cs, text, currentId).value.st.heap;
    ParseIsClean(text);
    PointerUnquoted(cs, Parse(text).value.value, State([], map[], currentId));
    forall a | a in src ensures a < |g| && ValuesQuoteFree(g[a].values) {
      CopyUnquoted(g[a], h[Rank(src, a)], src);
    }
    forall s: Slot ensures Inside(g, src, s) {
      if s.owner in src && TargetOf(g, s).Some? { GraphJsonProof.CopiedSlot(cs, g, h, src, Rank(src, s.owner), s); }
    }
  }

  lemma CopyUnquoted(o: Object, p: Object, src: seq<Addr>)
    requires Copy(o, p, src) && ValuesQuoteFree(p.values)
    ensures ValuesQuoteFree(o.values)
  {
    forall i | 0 <= i < |o.values| ensures ValueQuoteFree(o.values[i]) {
      assert Linked(o.values[i], p.values[i], src) && ValueQuoteFree(p.values[i]);
    }
  }

  /** Reading and loading the text of a graph gives the same graph again, one object for one, if and
      only if the graph can be loaded from its JSON and no string in it holds a double quote. */
  lemma {:induction false} TextRoundTripIff(cs: Classes, g: Heap, root: Addr, currentId: int, rest: string)
    requires WellTyped(cs, g) && NamesQuoteFree(cs) && ListedNode(cs, g, root)
    ensures Restores(g, root, ReadText(cs, Text(Layout(Write(cs, g, root), 0)) + rest, currentId))
      <==> exists order :: Loadable(cs, g, root, order) && QuoteFree(g, order)
  {
    var text := Text(Layout(Write(cs, g, root), 0)) + rest;
    if order :| Loadable(cs, g, root, order) && QuoteFree(g, order) {
      assert order[|order| - 1] in order;
      forall s: Slot ensures Inside(g, order, s) { assert Downward(g, order, s); }
      TextIsRead(cs, g, order, root, currentId, rest);
      GraphJsonProof.LoadableRoundTrips(cs, g, root, order, currentId);
    }
    if Restores(g, root, ReadText(cs, text, currentId)) {
      var r := ReadText(cs, text, currentId).value;
      var src :| Isomorphic(g, root, r.st.heap, r.value, src);
      RestoredIsClean(cs, g, root, text, currentId, src);
      TextIsRead(cs, g, src, root, currentId, rest);
      GraphJsonProof.RoundTripIsLoadable(cs, g, root, currentId, src);
    }
  }
}
