/** What the JSON of a graph looks like, told without the generator: every node has its number, class and
    fields where it is mentioned first, and its number alone wherever it is mentioned again. */
module WrittenOnce {
  import opened Options
  import opened JsonValues
  import opened GraphJson

  // ---------- what an object holds ----------

  /** `j` mentions the node at `a`: by its number, and perhaps with all that is not null in it. */
  ghost predicate Describes(cs: Classes, g: Heap, a: Addr, j: Json)
    requires WellTyped(cs, g)
    decreases j, 0
  {
    && a < |g| && j.JObject? && j.entries != []
    && j.entries[0] == Entry("Node_ID", JNumber(g[a].id))
    && (|j.entries| > 1 ==>
          && j.entries[1] == Entry("Node_Type", JString(g[a].typ))
          && ObjectOk(cs, g, g[a]) && DescribesFields(cs, g, cs[g[a].typ].fields, g[a].values, j.entries[2..]))
  }

  ghost predicate DescribesFields(cs: Classes, g: Heap, fs: seq<Field>, vs: seq<Value>, es: seq<Entry>)
    requires WellTyped(cs, g) && |fs| == |vs|
    decreases es, 1, |fs|
  {
    if fs == [] then es == []
    else if vs[0] == Pointer(None) then DescribesFields(cs, g, fs[1..], vs[1..], es)
    else
      && es != [] && es[0].key == fs[0].name && DescribesValue(cs, g, vs[0], es[0].value)
      && DescribesFields(cs, g, fs[1..], vs[1..], es[1..])
  }

  ghost predicate DescribesValue(cs: Classes, g: Heap, v: Value, j: Json)
    requires WellTyped(cs, g)
    decreases j, 1
  {
    match v
    case Plain(json) => j == json
    case Pointer(None) => false
    case Pointer(Some(b)) => Describes(cs, g, b, j)
    case Elements(items) =>
      && j.JVector? && |j.items| == |items|
      && forall i :: 0 <= i < |items| ==> Describes(cs, g, items[i], j.items[i])
  }

  // ---------- in which order nodes are mentioned ----------

  datatype Mention = Mention(id: int, full: bool)

  /** The nodes that `j` mentions, in the order of the text. */
  ghost function Mentions(j: Json): seq<Mention>
    decreases j, 0
  {
    match j
    case JVector(items) => MentionsOfItems(items)
    case JObject(es) =>
      if es != [] && es[0].key == "Node_ID" && es[0].value.JNumber? then
        [Mention(es[0].value.number, |es| > 1)] + MentionsOfEntries(es)
      else MentionsOfEntries(es)
    case _ => []
  }

  ghost function MentionsOfItems(items: seq<Json>): seq<Mention>
    decreases items, 1
  {
    if items == [] then [] else Mentions(items[0]) + MentionsOfItems(items[1..])
  }

  ghost function MentionsOfEntries(es: seq<Entry>): seq<Mention>
    decreases es, 1
  {
    if es == [] then []
    else
      assert es[0].value < es[0];
      Mentions(es[0].value) + MentionsOfEntries(es[1..])
  }

  ghost function Ids(ms: seq<Mention>): set<int>
  {
    set m | m in ms :: m.id
  }

  /** A node that is not in `refs` yet is written in full where it is mentioned first, and only there. */
  ghost predicate FirstInFull(ms: seq<Mention>, refs: set<int>)
  {
    forall i :: 0 <= i < |ms| ==> (ms[i].full <==> ms[i].id !in refs && ms[i].id !in Ids(ms[..i]))
  }

  lemma FirstInFullThen(a: seq<Mention>, b: seq<Mention>, refs: set<int>)
    requires FirstInFull(a, refs) && FirstInFull(b, refs + Ids(a))
    ensures FirstInFull(a + b, refs) && Ids(a + b) == Ids(a) + Ids(b)
  {
    var ms := a + b;
    forall i | 0 <= i < |ms| ensures ms[i].full <==> ms[i].id !in refs && ms[i].id !in Ids(ms[..i]) {
      if i < |a| {
        assert ms[..i] == a[..i];
      } else {
        assert ms[..i] == a + b[..i - |a|];
        IdsAppend(a, b[..i - |a|]);
      }
    }
    IdsAppend(a, b);
  }

  lemma IdsAppend(a: seq<Mention>, b: seq<Mention>)
    ensures Ids(a + b) == Ids(a) + Ids(b)
  {
    assert forall m :: m in a + b <==> m in a || m in b;
  }

  /** Behind the mentions `ms`, which began when `refs` had been written, `refs1` has been. */
  ghost predicate Mentioned(ms: seq<Mention>, refs: set<int>, refs1: set<int>)
  {
    FirstInFull(ms, refs) && refs1 == refs + Ids(ms)
  }

  lemma MentionedThen(a: seq<Mention>, b: seq<Mention>, refs: set<int>, refs1: set<int>, refs2: set<int>)
    requires Mentioned(a, refs, refs1) && Mentioned(b, refs1, refs2)
    ensures Mentioned(a + b, refs, refs2)
  {
    FirstInFullThen(a, b, refs);
  }

  lemma NothingMentioned(refs: set<int>)
    ensures Mentioned([], refs, refs)
  {
    assert Ids([]) == {};
  }

  // ---------- the generator does so ----------

  lemma {:induction false} NodeWritten(cs: Classes, g: Heap, a: Addr, refs: set<int>)
    requires WellTyped(cs, g) && a < |g|
    ensures var w := WriteNode(cs, g, a, refs);
      Describes(cs, g, a, w.out) && Mentioned(Mentions(w.out), refs, w.refs)
    decreases Unwritten(g, refs), 0, 0
  {
    var o := g[a];
    assert ObjectOk(cs, g, o);
    if o.id in refs {
      HeadMentioned([IdEntry(o.id)], o.id, refs);
    } else {
      assert a in Unwritten(g, refs) && a !in Unwritten(g, refs + {o.id});
      FieldsWritten(cs, g, cs[o.typ].fields, o.values, refs + {o.id});
      var w := WriteFields(cs, g, cs[o.typ].fields, o.values, refs + {o.id});
      var es := [IdEntry(o.id), TypeEntry(o.typ)] + w.out;
      assert es[2..] == w.out;
      FullMentioned(es, o.id, o.typ, refs, w.refs);
    }
  }

  lemma HeadMentioned(es: seq<Entry>, id: int, refs: set<int>)
    requires es == [IdEntry(id)] && id in refs
    ensures Mentioned(Mentions(JObject(es)), refs, refs)
  {
    var ms := Mentions(JObject(es));
    assert es[1..] == [] && Mentions(es[0].value) == [];
    assert MentionsOfEntries(es) == [] + MentionsOfEntries(es[1..]);
    assert ms == [Mention(id, false)];
    assert Ids(ms) == {id};
  }

  lemma FullMentioned(es: seq<Entry>, id: int, typ: string, refs: set<int>, refs1: set<int>)
    requires |es| >= 2 && es[0] == IdEntry(id) && es[1] == TypeEntry(typ) && id !in refs
    requires Mentioned(MentionsOfEntries(es[2..]), refs + {id}, refs1)
    ensures Mentioned(Mentions(JObject(es)), refs, refs1)
  {
    var head, rest := [Mention(id, true)], MentionsOfEntries(es[2..]);
    assert es[1..][1..] == es[2..] && Mentions(es[0].value) == [] && Mentions(es[1].value) == [];
    assert MentionsOfEntries(es[1..]) == [] + rest;
    assert MentionsOfEntries(es) == [] + ([] + rest);
    assert Mentions(JObject(es)) == head + rest;
    assert Ids(head) == {id} && Ids(head[..0]) == {};
    MentionedThen(head, rest, refs, refs + {id}, refs1);
  }

  lemma {:induction false} FieldsWritten(cs: Classes, g: Heap, fs: seq<Field>, vs: seq<Value>, refs: set<int>)
    requires WellTyped(cs, g) && |fs| == |vs| && forall i :: 0 <= i < |vs| ==> Fits(cs, g, fs[i].kind, vs[i])
    ensures var w := WriteFields(cs, g, fs, vs, refs);
      DescribesFields(cs, g, fs, vs, w.out) && Mentioned(MentionsOfEntries(w.out), refs, w.refs)
    decreases Unwritten(g, refs), 3, |fs|
  {
    if fs == [] {
      NothingMentioned(refs);
    } else {
      var w := WriteValue(cs, g, fs[0].kind, vs[0], refs);
      var rest := WriteFields(cs, g, fs[1..], vs[1..], w.refs);
      ValueWritten(cs, g, fs[0].kind, vs[0], refs);
      FieldsWritten(cs, g, fs[1..], vs[1..], w.refs);
      if w.out.Some? {
        var es := [Entry(fs[0].name, w.out.value)] + rest.out;
        assert es[1..] == rest.out;
        MentionedThen(Mentions(w.out.value), MentionsOfEntries(rest.out), refs, w.refs, rest.refs);
      }
    }
  }

  lemma {:induction false} ValueWritten(cs: Classes, g: Heap, k: Kind, v: Value, refs: set<int>)
    requires WellTyped(cs, g) && Fits(cs, g, k, v)
    ensures var w := WriteValue(cs, g, k, v, refs);
      && (w.out.None? <==> v == Pointer(None))
      && (w.out.None? ==> w.refs == refs)
      && (w.out.Some? ==>
            DescribesValue(cs, g, v, w.out.value) && Mentioned(Mentions(w.out.value), refs, w.refs))
    decreases Unwritten(g, refs), 2, 0
  {
    match v
    case Plain(json) => NothingMentioned(refs);
    case Pointer(None) =>
    case Pointer(Some(b)) => NodeWritten(cs, g, b, refs);
    case Elements(items) => ItemsWritten(cs, g, items, refs);
  }

  lemma {:induction false} ItemsWritten(cs: Classes, g: Heap, items: seq<Addr>, refs: set<int>)
    requires WellTyped(cs, g) && forall i :: 0 <= i < |items| ==> ListedNode(cs, g, items[i])
    ensures var w := WriteItems(cs, g, items, refs);
      && (forall i :: 0 <= i < |items| ==> Describes(cs, g, items[i], w.out[i]))
      && Mentioned(MentionsOfItems(w.out), refs, w.refs)
    decreases Unwritten(g, refs), 1, |items|
  {
    if items == [] {
      NothingMentioned(refs);
    } else {
      assert ListedNode(cs, g, items[0]);
      var w := WriteNode(cs, g, items[0], refs);
      var rest := WriteItems(cs, g, items[1..], w.refs);
      NodeWritten(cs, g, items[0], refs);
      ItemsWritten(cs, g, items[1..], w.refs);
      assert ([w.out] + rest.out)[1..] == rest.out;
      MentionedThen(Mentions(w.out), MentionsOfItems(rest.out), refs, w.refs, rest.refs);
    }
  }

  /** Whatever the graph, cyclic or not: the JSON describes the root, and in the order of the text every
      node is written in full where it is mentioned first, and by its number alone from then on. */
  lemma FirstMentionIsFull(cs: Classes, g: Heap, root: Addr)
    requires WellTyped(cs, g) && root < |g|
    ensures Describes(cs, g, root, Write(cs, g, root)) && FirstInFull(Mentions(Write(cs, g, root)), {})
  {
    NodeWritten(cs, g, root, {});
  }
}
