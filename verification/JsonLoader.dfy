/** The loader as it runs: it allocates nodes and keeps the nodes it has built by their ids. */
module JsonLoader {
  import opened Options
  import opened JsonValues
  import opened GraphJson

  /** With `done` read and `rest` to come, all is as wanted. */
  ghost predicate Leads<T>(done: seq<T>, rest: Option<Loaded<seq<T>>>, want: Option<Loaded<seq<T>>>)
  {
    match rest
    case Some(l) => want == Some(Loaded(done + l.value, l.st))
    case None => want.None?
  }

  function Prepend<T>(x: T, rest: Option<Loaded<seq<T>>>): Option<Loaded<seq<T>>>
  {
    match rest
    case Some(l) => Some(Loaded([x] + l.value, l.st))
    case None => None
  }

  lemma LeadsFrom<T>(want: Option<Loaded<seq<T>>>)
    ensures Leads([], want, want)
  {
    if want.Some? { assert [] + want.value.value == want.value.value; }
  }

  lemma LeadsOn<T>(done: seq<T>, x: T, rest: Option<Loaded<seq<T>>>, want: Option<Loaded<seq<T>>>)
    requires Leads(done, Prepend(x, rest), want)
    ensures Leads(done + [x], rest, want)
  {
    if rest.Some? { assert done + ([x] + rest.value.value) == done + [x] + rest.value.value; }
  }

  class JSONLoader {
    var heap: Heap
    var node_refs: map<int, Addr>
    var currentId: int

    constructor (currentId: int)
      ensures Now() == State([], map[], currentId)
    {
      heap, node_refs, this.currentId := [], map[], currentId;
    }

    ghost function Now(): State
      reads this
    {
      State(heap, node_refs, currentId)
    }

    ghost predicate Did<T>(want: Option<Loaded<T>>, got: Option<T>)
      reads this
    {
      match want
      case Some(l) => got == Some(l.value) && Now() == l.st
      case None => got.None?
    }

    method GetNode(cs: Classes, j: Json) returns (r: Option<Addr>)
      modifies this
      ensures Did(LoadPointer(cs, j, old(Now())), r)
      decreases j, 1
    {
      r := None;
      match EntryOf(j, "Node_ID")
      case Some(JNumber(id)) =>
        if id < 0 { return None; }
        if id in node_refs { return Some(node_refs[id]); }
        match EntryOf(j, "Node_Type") {
          case Some(JString(typ)) =>
            if typ in cs && cs[typ].listed {
              r := Construct(cs, typ, j);
              if r.Some? { node_refs := node_refs[id := r.value]; }
            }
          case _ =>
        }
      case _ =>
    }

    /** The loading constructor of the class `typ`. */
    method Construct(cs: Classes, typ: string, j: Json) returns (r: Option<Addr>)
      requires typ in cs
      modifies this
      ensures Did(LoadObject(cs, typ, j, old(Now())), r)
      decreases j, 0, 1
    {
      var own := OwnId(j, currentId);
      if own.None? { return None; }
      var id := own.value;
      if id >= currentId { currentId := id + 1; }
      var values := LoadAll(cs, cs[typ].fields, j);
      if values.None? { return None; }
      r := Some(|heap|);
      heap := heap + [Object(id, typ, values.value)];
    }

    method LoadAll(cs: Classes, fs: seq<Field>, j: Json) returns (r: Option<seq<Value>>)
      modifies this
      ensures Did(LoadFields(cs, fs, j, old(Now())), r)
      decreases j, 0, 0, 1
    {
      var vs := [];
      ghost var want := LoadFields(cs, fs, j, Now());
      assert fs[0..] == fs;
      LeadsFrom(want);
      for i := 0 to |fs|
        invariant Leads(vs, LoadFields(cs, fs[i..], j, Now()), want)
      {
        assert fs[i..][1..] == fs[i + 1..];
        var v := LoadOne(cs, fs[i], j);
        if v.None? { return None; }
        ghost var rest := LoadFields(cs, fs[i + 1..], j, Now());
        LeadsOn(vs, v.value, rest, want);
        vs := vs + [v.value];
      }
      assert vs + [] == vs;
      r := Some(vs);
    }

    method LoadOne(cs: Classes, f: Field, j: Json) returns (r: Option<Value>)
      modifies this
      ensures Did(LoadField(cs, f, j, old(Now())), r)
      decreases j, 0, 0, 0
    {
      match EntryOf(j, f.name)
      case None => r := Some(Default(f.kind));
      case Some(v) => r := Unpack(cs, f.kind, v);
    }

    method Unpack(cs: Classes, k: Kind, j: Json) returns (r: Option<Value>)
      modifies this
      ensures Did(LoadValue(cs, k, j, old(Now())), r)
      decreases j, 2
    {
      r := None;
      match k
      case PlainField =>
        if PlainJson(j) { r := Some(Plain(j)); }
      case PointerField(_) =>
        var p := GetNode(cs, j);
        if p.Some? { r := Some(Pointer(p)); }
      case VectorField(typ, _) =>
        if typ in cs {
          var p := Construct(cs, typ, j);
          if p.Some? { r := Some(Pointer(p)); }
        }
      case ElementsField =>
        if j.JVector? {
          var items := UnpackVector(cs, j.items);
          if items.Some? { r := Some(Elements(items.value)); }
        }
    }

    method UnpackVector(cs: Classes, js: seq<Json>) returns (r: Option<seq<Addr>>)
      modifies this
      ensures Did(LoadItems(cs, js, old(Now())), r)
      decreases js, 0
    {
      var v := [];
      ghost var want := LoadItems(cs, js, Now());
      assert js[0..] == js;
      LeadsFrom(want);
      for i := 0 to |js|
        invariant Leads(v, LoadItems(cs, js[i..], Now()), want)
      {
        assert js[i..][1..] == js[i + 1..];
        var temp := GetNode(cs, js[i]);
        if temp.None? { return None; }
        ghost var rest := LoadItems(cs, js[i + 1..], Now());
        LeadsOn(v, temp.value, rest, want);
        v := v + [temp.value];
      }
      assert v + [] == v;
      r := Some(v);
    }
  }
}
