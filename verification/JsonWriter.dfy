/** The generator as it runs: it writes to a stream, keeps the ids written so far, and indents. */
module JsonWriter {
  import opened Options
  import opened JsonValues
  import opened JsonText
  import opened GraphJson
  import opened JsonLayout

  // ---------- the pieces of an object's text ----------

  function FieldHead(name: string, m: nat): string
  {
    "," + Line(m) + Quoted(name) + " : "
  }

  function FieldText(e: Entry, m: nat): string
  {
    FieldHead(e.key, m) + Text(Layout(e.value, m))
  }

  function FieldsText(es: seq<Entry>, m: nat): string
  {
    if es == [] then "" else FieldText(es[0], m) + FieldsText(es[1..], m)
  }

  function IdText(id: int, m: nat): string
  {
    Line(m) + Quoted("Node_ID") + " : " + NumberText(id)
  }

  function TypeText(typ: string, m: nat): string
  {
    ", " + Line(m) + Quoted("Node_Type") + " : " + Quoted(typ)
  }

  function ItemsBody(js: seq<Json>, first: bool, m: nat): string
  {
    if js == [] then ""
    else (if first then "" else ",") + Line(m + 1) + Text(Layout(js[0], m + 1)) + ItemsBody(js[1..], false, m)
  }

  function Close(empty: bool, m: nat): string
  {
    if empty then "]" else Line(m) + "]"
  }

  lemma EntryIs(e: Entry, i: nat, last: bool, n: nat)
    ensures EntryText(LayoutEntry(e, i, last, n))
         == Start(i, n + 1) + Quoted(e.key) + " : " + Text(Layout(e.value, n + 1)) + End(last, n)
  {
    EntryParts(Start(i, n + 1), Quoted(e.key), Text(Layout(e.value, n + 1)), End(last, n));
  }

  lemma {:induction false} FieldsAre(es: seq<Entry>, i: nat, n: nat)
    requires es != [] && i >= 2
    ensures "," + EntriesText(LayoutEntries(es, i, n)) == FieldsText(es, n + 1) + Line(n) + "}"
    decreases |es|
  {
    var last := |es| == 1;
    EntryIs(es[0], i, last, n);
    var d, f := EntryText(LayoutEntry(es[0], i, last, n)), FieldText(es[0], n + 1);
    CommaEntry(Line(n + 1), Quoted(es[0].key), Text(Layout(es[0].value, n + 1)), End(last, n));
    if last {
      LastField(d, f, Line(n));
      OneField(es, i, n);
    } else {
      var more := EntriesText(LayoutEntries(es[1..], i + 1, n));
      FieldsAre(es[1..], i + 1, n);
      NextField(d, f, more, FieldsText(es[1..], n + 1), Line(n));
      MoreFields(es, i, n);
    }
  }

  lemma ObjectIs(id: int, typ: string, es: seq<Entry>, n: nat)
    ensures Text(Layout(JObject([IdEntry(id), TypeEntry(typ)] + es), n))
         == "{" + IdText(id, n + 1) + TypeText(typ, n + 1) + FieldsText(es, n + 1) + Line(n) + "}"
  {
    var tail := TypeEntry(typ);
    EntryIs(IdEntry(id), 0, false, n);
    EntryIs(tail, 1, es == [], n);
    var d0, d1 := EntryText(LayoutEntry(IdEntry(id), 0, false, n)), EntryText(LayoutEntry(tail, 1, es == [], n));
    var i, t := IdText(id, n + 1), TypeText(typ, n + 1);
    EndsEmpty(Line(n + 1), Quoted("Node_ID"), NumberText(id));
    CommaType(Line(n + 1), Quoted("Node_Type"), Quoted(typ), End(es == [], n));
    HeadSplit(id, typ, es, n);
    if es == [] {
      HeadOnly(d1, t, Line(n));
      assert FieldsText(es, n + 1) == "";
      BraceOnly(i, t, Line(n), d1);
    } else {
      FieldsAre(es, 2, n);
      HeadMore(d0, d1, t, EntriesText(LayoutEntries(es, 2, n)), FieldsText(es, n + 1), Line(n));
    }
  }

  lemma ReferenceIs(id: int, n: nat)
    ensures Text(Layout(JObject([IdEntry(id)]), n)) == "{" + IdText(id, n + 1) + Line(n) + "}"
  {
    var all := [IdEntry(id)];
    EntryIs(all[0], 0, true, n);
    assert LayoutEntries(all, 0, n) == [LayoutEntry(all[0], 0, true, n)];
  }

  lemma {:induction false} ItemsAre(js: seq<Json>, first: bool, n: nat)
    requires js != []
    ensures (if first then "" else ",") + ItemsText(LayoutItems(js, n)) == ItemsBody(js, first, n) + Line(n) + "]"
    decreases |js|
  {
    var last := |js| == 1;
    var i := DItem(Line(n + 1), Layout(js[0], n + 1), End(last, n));
    var comma := if first then "" else ",";
    var head := comma + Line(n + 1) + Text(Layout(js[0], n + 1));
    CommaItem(comma, Line(n + 1), Text(Layout(js[0], n + 1)), End(last, n));
    if last {
      assert ItemsText(LayoutItems(js, n)) == ItemText(i) + "]";
      assert ItemsBody(js, first, n) == head + "";
      LastItem(comma, ItemText(i), head, Line(n));
    } else {
      ItemsAre(js[1..], false, n);
      var more := ItemsText(LayoutItems(js[1..], n));
      assert LayoutItems(js, n) == [i] + LayoutItems(js[1..], n);
      assert ItemsText(LayoutItems(js, n)) == ItemText(i) + ("," + more);
      NextItem(comma, ItemText(i), head, more, ItemsBody(js[1..], false, n), Line(n));
    }
  }

  lemma VectorIs(js: seq<Json>, n: nat)
    ensures Text(Layout(JVector(js), n)) == "[" + ItemsBody(js, true, n) + Close(js == [], n)
  {
    if js != [] {
      ItemsAre(js, true, n);
      Bracket(ItemsText(LayoutItems(js, n)), ItemsBody(js, true, n), Line(n));
    }
  }

  lemma OneField(es: seq<Entry>, i: nat, n: nat)
    requires |es| == 1
    ensures EntriesText(LayoutEntries(es, i, n)) == EntryText(LayoutEntry(es[0], i, true, n)) + "}"
    ensures FieldsText(es, n + 1) == FieldText(es[0], n + 1)
  {
    assert LayoutEntries(es, i, n) == [LayoutEntry(es[0], i, true, n)];
    assert FieldsText(es, n + 1) == FieldText(es[0], n + 1) + "";
  }

  lemma MoreFields(es: seq<Entry>, i: nat, n: nat)
    requires |es| > 1
    ensures EntriesText(LayoutEntries(es, i, n))
         == EntryText(LayoutEntry(es[0], i, false, n)) + ("," + EntriesText(LayoutEntries(es[1..], i + 1, n)))
    ensures FieldsText(es, n + 1) == FieldText(es[0], n + 1) + FieldsText(es[1..], n + 1)
  {
    assert LayoutEntries(es, i, n) == [LayoutEntry(es[0], i, false, n)] + LayoutEntries(es[1..], i + 1, n);
  }

  lemma ObjectText(es: seq<Entry>, n: nat)
    requires es != []
    ensures Text(Layout(JObject(es), n)) == "{" + EntriesText(LayoutEntries(es, 0, n))
  {}

  lemma HeadSplit(id: int, typ: string, es: seq<Entry>, n: nat)
    ensures (var d0 := EntryText(LayoutEntry(IdEntry(id), 0, false, n));
      var d1 := EntryText(LayoutEntry(TypeEntry(typ), 1, es == [], n));
      Text(Layout(JObject([IdEntry(id), TypeEntry(typ)] + es), n))
      == "{" + (d0 + ("," + (d1 + (if es == [] then "}" else "," + EntriesText(LayoutEntries(es, 2, n)))))))
  {
    var mid := [TypeEntry(typ)] + es;
    var all := [IdEntry(id)] + mid;
    assert [IdEntry(id), TypeEntry(typ)] + es == all;
    ObjectText(all, n);
    assert all[0] == IdEntry(id) && all[1..] == mid && mid[0] == TypeEntry(typ) && mid[1..] == es;
    MoreFields(all, 0, n);
    if es == [] { OneField(mid, 1, n); } else { MoreFields(mid, 1, n); }
  }

  /** What the text and the ids written will be when the items have been written too. */
  function Rest(cs: Classes, g: Heap, items: seq<Addr>, refs: set<int>, out: string, first: bool, n: nat)
    : (string, set<int>)
    requires WellTyped(cs, g) && forall i :: 0 <= i < |items| ==> ListedNode(cs, g, items[i])
  {
    var w := WriteItems(cs, g, items, refs);
    (out + ItemsBody(w.out, first, n), w.refs)
  }

  lemma RestStep(cs: Classes, g: Heap, items: seq<Addr>, refs: set<int>, out: string, first: bool, n: nat)
    requires WellTyped(cs, g) && items != [] && forall i :: 0 <= i < |items| ==> ListedNode(cs, g, items[i])
    ensures ListedNode(cs, g, items[0])
    ensures (var w := WriteNode(cs, g, items[0], refs);
      Rest(cs, g, items, refs, out, first, n) ==
      Rest(cs, g, items[1..], w.refs, out + (if first then "" else ",") + Line(n + 1)
        + Text(Layout(w.out, n + 1)), false, n))
  {
    assert ListedNode(cs, g, items[0]);
    var w := WriteNode(cs, g, items[0], refs);
    ItemWritten(out, w.out, WriteItems(cs, g, items[1..], w.refs).out, first, n);
  }

  /** What is between the braces of a node. */
  function NodeBody(cs: Classes, g: Heap, a: Addr, refs: set<int>, m: nat): string
    requires WellTyped(cs, g) && a < |g|
  {
    assert ObjectOk(cs, g, g[a]);
    if g[a].id in refs then IdText(g[a].id, m)
    else
      var w := WriteFields(cs, g, cs[g[a].typ].fields, g[a].values, refs + {g[a].id});
      IdText(g[a].id, m) + TypeText(g[a].typ, m) + FieldsText(w.out, m)
  }

  lemma NodeTextIs(cs: Classes, g: Heap, a: Addr, refs: set<int>, n: nat)
    requires WellTyped(cs, g) && a < |g|
    ensures Text(Layout(WriteNode(cs, g, a, refs).out, n)) == "{" + NodeBody(cs, g, a, refs, n + 1) + Line(n) + "}"
  {
    if g[a].id in refs {
      ReferenceIs(g[a].id, n);
    } else {
      assert ObjectOk(cs, g, g[a]);
      var w := WriteFields(cs, g, cs[g[a].typ].fields, g[a].values, refs + {g[a].id});
      ObjectIs(g[a].id, g[a].typ, w.out, n);
      BodyGroups(IdText(g[a].id, n + 1), TypeText(g[a].typ, n + 1), FieldsText(w.out, n + 1));
    }
  }

  // ---------- putting strings together ----------

  lemma EntryParts(s: string, q: string, t: string, z: string)
    ensures s + (q + (" " + (":" + (" " + (t + z))))) == s + q + " : " + t + z
  {
    assert " " + (":" + (" " + (t + z))) == " : " + (t + z);
  }

  lemma CommaEntry(l: string, q: string, t: string, z: string)
    ensures "," + (l + q + " : " + t + z) == "," + l + q + " : " + t + z
  {}

  lemma BodyGroups(i: string, t: string, fs: string)
    ensures "{" + i + t + fs == "{" + (i + t + fs)
  {}

  lemma EndsEmpty(l: string, q: string, t: string)
    ensures l + q + " : " + t + "" == l + q + " : " + t
  {}

  lemma CommaType(l: string, q: string, t: string, z: string)
    ensures "," + (" " + l + q + " : " + t + z) == ", " + l + q + " : " + t + z
  {
    assert "," + " " == ", ";
    assert "," + (" " + l + q + " : " + t + z) == ("," + " ") + l + q + " : " + t + z;
  }

  lemma LastField(d: string, f: string, l: string)
    requires "," + d == f + l
    ensures "," + (d + "}") == f + l + "}"
  {
    assert "," + (d + "}") == ("," + d) + "}";
  }

  lemma NextField(d: string, f: string, more: string, fs: string, l: string)
    requires "," + d == f + "" && "," + more == fs + l + "}"
    ensures "," + (d + ("," + more)) == f + fs + l + "}"
  {
    assert "," + (d + ("," + more)) == ("," + d) + ("," + more);
    assert f + "" == f;
    assert f + (fs + l + "}") == f + fs + l + "}";
  }

  lemma HeadOnly(d1: string, t: string, l: string)
    requires "," + d1 == t + l
    ensures "," + (d1 + "}") == t + l + "}"
  {
    LastField(d1, t, l);
  }

  lemma BraceOnly(i: string, t: string, l: string, d1: string)
    requires "," + (d1 + "}") == t + l + "}"
    ensures "{" + (i + ("," + (d1 + "}"))) == "{" + i + t + "" + l + "}"
  {
    assert i + (t + l + "}") == i + t + l + "}";
    assert "{" + (i + t + l + "}") == "{" + i + t + l + "}";
    assert "{" + i + t + "" == "{" + i + t;
  }

  lemma HeadMore(i: string, d1: string, t: string, more: string, fs: string, l: string)
    requires "," + d1 == t + "" && "," + more == fs + l + "}"
    ensures "{" + (i + ("," + (d1 + ("," + more)))) == "{" + i + t + fs + l + "}"
  {
    NextField(d1, t, more, fs, l);
    assert i + (t + fs + l + "}") == i + t + fs + l + "}";
    assert "{" + (i + t + fs + l + "}") == "{" + i + t + fs + l + "}";
  }

  lemma CommaItem(comma: string, l: string, t: string, z: string)
    ensures comma + (l + t + z) == comma + l + t + z
  {}

  lemma LastItem(comma: string, i: string, head: string, l: string)
    requires comma + i == head + l
    ensures comma + (i + "]") == head + "" + l + "]"
  {
    assert comma + (i + "]") == (comma + i) + "]";
    assert head + "" == head;
  }

  lemma NextItem(comma: string, i: string, head: string, more: string, items: string, l: string)
    requires comma + i == head + "" && "," + more == items + l + "]"
    ensures comma + (i + ("," + more)) == head + items + l + "]"
  {
    assert comma + (i + ("," + more)) == (comma + i) + ("," + more);
    assert head + "" == head;
    assert head + (items + l + "]") == head + items + l + "]";
  }

  lemma Bracket(items: string, body: string, l: string)
    requires "" + items == body + l + "]"
    ensures "[" + items == "[" + body + (l + "]")
  {
    assert "" + items == items;
    assert "[" + (body + l + "]") == "[" + body + (l + "]");
  }

  // ---------- the generator ----------

  class JSONGenerator {
    var out: string
    var node_refs: set<int>
    var indent: nat

    constructor ()
      ensures out == "" && node_refs == {} && indent == 0
    {
      out, node_refs, indent := "", {}, 0;
    }

    method Put(s: string)
      modifies this`out
      ensures out == old(out) + s
    {
      out := out + s;
    }

    /** Writes a node, or its id alone if it was begun before. */
    method GenerateNode(cs: Classes, g: Heap, a: Addr)
      requires WellTyped(cs, g) && a < |g|
      modifies this
      ensures out == old(out) + Text(Layout(WriteNode(cs, g, a, old(node_refs)).out, old(indent)))
      ensures node_refs == WriteNode(cs, g, a, old(node_refs)).refs && indent == old(indent)
      decreases Unwritten(g, node_refs), 0, 0
    {
      ghost var start, refs, n := out, node_refs, indent;
      Put("{");
      indent := indent + 1;
      ghost var body := NodeBody(cs, g, a, refs, indent);
      GenerateBody(cs, g, a);
      indent := indent - 1;
      Put(Line(indent));
      Put("}");
      NodeTextIs(cs, g, a, refs, n);
      Braced(start, body, Line(n));
    }

    method GenerateBody(cs: Classes, g: Heap, a: Addr)
      requires WellTyped(cs, g) && a < |g|
      modifies this
      ensures out == old(out) + NodeBody(cs, g, a, old(node_refs), old(indent))
      ensures node_refs == WriteNode(cs, g, a, old(node_refs)).refs && indent == old(indent)
      decreases Unwritten(g, node_refs), 0, -1
    {
      if g[a].id in node_refs {
        Put(IdText(g[a].id, indent));
      } else {
        assert a in Unwritten(g, node_refs) && a !in Unwritten(g, node_refs + {g[a].id});
        assert ObjectOk(cs, g, g[a]);
        node_refs := node_refs + {g[a].id};
        ToJSON(cs, g, a);
      }
    }

    method ToJSON(cs: Classes, g: Heap, a: Addr)
      requires WellTyped(cs, g) && a < |g| && ObjectOk(cs, g, g[a])
      modifies this
      ensures (var w := WriteFields(cs, g, cs[g[a].typ].fields, g[a].values, old(node_refs));
        out == old(out) + (IdText(g[a].id, indent) + TypeText(g[a].typ, indent) + FieldsText(w.out, indent))
        && node_refs == w.refs)
      ensures indent == old(indent)
      decreases Unwritten(g, node_refs), 4, 0
    {
      Put(IdText(g[a].id, indent));
      Put(TypeText(g[a].typ, indent));
      ghost var w := WriteFields(cs, g, cs[g[a].typ].fields, g[a].values, node_refs);
      GenerateFields(cs, g, cs[g[a].typ].fields, g[a].values);
      Joins(old(out), IdText(g[a].id, indent), TypeText(g[a].typ, indent), FieldsText(w.out, indent));
    }

    /** The part of `toJSON` that follows the id and the class. */
    method GenerateFields(cs: Classes, g: Heap, fs: seq<Field>, vs: seq<Value>)
      requires WellTyped(cs, g) && |fs| == |vs|
      requires forall i :: 0 <= i < |vs| ==> Fits(cs, g, fs[i].kind, vs[i])
      modifies this
      ensures out == old(out) + FieldsText(WriteFields(cs, g, fs, vs, old(node_refs)).out, old(indent))
      ensures node_refs == WriteFields(cs, g, fs, vs, old(node_refs)).refs && indent == old(indent)
      decreases Unwritten(g, node_refs), 3, 0
    {
      ghost var w := WriteFields(cs, g, fs, vs, node_refs);
      ghost var goal := out + FieldsText(w.out, indent);
      ghost var refs0 := node_refs;
      assert fs[0..] == fs && vs[0..] == vs;
      for i := 0 to |fs|
        invariant indent == old(indent) && refs0 <= node_refs
        invariant WriteFields(cs, g, fs[i..], vs[i..], node_refs).refs == w.refs
        invariant out + FieldsText(WriteFields(cs, g, fs[i..], vs[i..], node_refs).out, indent) == goal
      {
        ghost var before, refs := out, node_refs;
        assert fs[i..][1..] == fs[i + 1..] && vs[i..][1..] == vs[i + 1..];
        assert Unwritten(g, node_refs) <= Unwritten(g, refs0);
        if vs[i] != Pointer(None) {
          Put(FieldHead(fs[i].name, indent));
          GenerateValue(cs, g, fs[i].kind, vs[i]);
          ghost var v := WriteValue(cs, g, fs[i].kind, vs[i], refs).out.value;
          ghost var rest := WriteFields(cs, g, fs[i + 1..], vs[i + 1..], node_refs).out;
          FieldWritten(before, Entry(fs[i].name, v), rest, indent);
        }
      }
    }

    method GenerateValue(cs: Classes, g: Heap, k: Kind, v: Value)
      requires WellTyped(cs, g) && Fits(cs, g, k, v) && v != Pointer(None)
      modifies this
      ensures WriteValue(cs, g, k, v, old(node_refs)).out.Some?
      ensures out == old(out) + Text(Layout(WriteValue(cs, g, k, v, old(node_refs)).out.value, old(indent)))
      ensures node_refs == WriteValue(cs, g, k, v, old(node_refs)).refs && indent == old(indent)
      decreases Unwritten(g, node_refs), 2, 0
    {
      match v
      case Plain(j) =>
        Put(if j.JString? then Quoted(j.text)
            else if j.JNumber? then NumberText(j.number)
            else if j.JNull? then "null"
            else if j.truth then "true" else "false");
      case Pointer(Some(b)) => GenerateNode(cs, g, b);
      case Elements(items) => GenerateVector(cs, g, items);
    }

    /** The elements, each on a line of its own. */
    method GenerateVector(cs: Classes, g: Heap, items: seq<Addr>)
      requires WellTyped(cs, g) && forall i :: 0 <= i < |items| ==> ListedNode(cs, g, items[i])
      modifies this
      ensures out == old(out) + Text(Layout(JVector(WriteItems(cs, g, items, old(node_refs)).out), old(indent)))
      ensures node_refs == WriteItems(cs, g, items, old(node_refs)).refs && indent == old(indent)
      decreases Unwritten(g, node_refs), 1, 0
    {
      ghost var start, w, n := out, WriteItems(cs, g, items, node_refs), indent;
      Put("[");
      indent := indent + 1;
      GenerateItems(cs, g, items);
      indent := indent - 1;
      Put(Close(items == [], indent));
      VectorIs(w.out, n);
      Joins(start, "[", ItemsBody(w.out, true, n), Close(items == [], n));
    }

    method GenerateItems(cs: Classes, g: Heap, items: seq<Addr>)
      requires WellTyped(cs, g) && forall i :: 0 <= i < |items| ==> ListedNode(cs, g, items[i])
      requires indent > 0
      modifies this
      ensures out == old(out) + ItemsBody(WriteItems(cs, g, items, old(node_refs)).out, true, old(indent) - 1)
      ensures node_refs == WriteItems(cs, g, items, old(node_refs)).refs && indent == old(indent)
      decreases Unwritten(g, node_refs), 1, -1
    {
      ghost var n, refs0 := indent - 1, node_refs;
      ghost var want := Rest(cs, g, items, node_refs, out, true, n);
      assert items[0..] == items;
      for i := 0 to |items|
        invariant indent == n + 1 && refs0 <= node_refs
        invariant Rest(cs, g, items[i..], node_refs, out, i == 0, n) == want
      {
        ghost var before, refs := out, node_refs;
        assert Unwritten(g, node_refs) <= Unwritten(g, refs0);
        if i > 0 { Put(","); } else { assert before + "" == before; }
        Put(Line(indent));
        assert ListedNode(cs, g, items[i]);
        GenerateNode(cs, g, items[i]);
        RestStep(cs, g, items[i..], refs, before, i == 0, n);
        assert items[i..][1..] == items[i + 1..] && items[i..][0] == items[i];
      }
      assert out + "" == out;
    }
  }

  lemma Joins(start: string, a: string, b: string, c: string)
    ensures start + a + b + c == start + (a + b + c)
  {}

  lemma Braced(start: string, a: string, d: string)
    ensures start + "{" + a + d + "}" == start + ("{" + a + d + "}")
  {}

  lemma FieldWritten(before: string, e: Entry, rest: seq<Entry>, m: nat)
    ensures before + FieldHead(e.key, m) + Text(Layout(e.value, m)) + FieldsText(rest, m)
         == before + FieldsText([e] + rest, m)
  {
    assert FieldsText([e] + rest, m) == FieldText(e, m) + FieldsText(rest, m);
  }

  lemma ItemWritten(before: string, j: Json, rest: seq<Json>, first: bool, n: nat)
    ensures before + (if first then "" else ",") + Line(n + 1) + Text(Layout(j, n + 1)) + ItemsBody(rest, false, n)
         == before + ItemsBody([j] + rest, first, n)
  {
    assert ([j] + rest)[1..] == rest;
  }
}
