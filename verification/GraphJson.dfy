/**
 Node graphs written as JSON and read back.  `Write` is the generator, which writes a node in full
 the first time and as its id alone from then on; `Load` is the loader, which keeps the nodes it has
 built by their ids.  An address names an object in memory; its `id` is the node's own number.
 */
module GraphJson {
  import opened Options
  import opened Sequences
  import opened JsonValues

  type Addr = nat

  /** A field of a class: a plain value; a pointer to a node; a pointer to (or an inlined) vector,
      whose class is then known from the field's type; or the elements a vector holds. */
  datatype Kind = PlainField | PointerField(nullOK: bool) | VectorField(vector: string, nullOK: bool) | ElementsField
  datatype Field = Field(name: string, kind: Kind)

  /** `listed`: the class is in the table from which the loader picks a node's constructor. */
  datatype Class = Class(fields: seq<Field>, listed: bool)
  type Classes = map<string, Class>

  /** `Plain(JNull)` is a null string. */
  datatype Value = Plain(json: Json) | Pointer(target: Option<Addr>) | Elements(items: seq<Addr>)
  datatype Object = Object(id: int, typ: string, values: seq<Value>)
  type Heap = seq<Object>

  // ---------- well-typed graphs ----------

  predicate PlainJson(j: Json)
  {
    j.JNumber? || j.JString? || j.JBool?
  }

  ghost predicate ClassesOk(cs: Classes)
  {
    && (forall c :: c in cs ==> FieldsOk(cs, cs[c].fields))
    && ("" in cs ==> !cs[""].listed)
  }

  ghost predicate FieldsOk(cs: Classes, fs: seq<Field>)
  {
    && (forall i :: 0 <= i < |fs| ==> fs[i].name != "Node_ID" && fs[i].name != "Node_Type")
    && (forall i, j :: 0 <= i < j < |fs| ==> fs[i].name != fs[j].name)
    && (forall i :: 0 <= i < |fs| && fs[i].kind.VectorField? ==> fs[i].kind.vector in cs)
  }

  ghost predicate ListedNode(cs: Classes, g: Heap, a: Addr)
  {
    a < |g| && g[a].typ in cs && cs[g[a].typ].listed
  }

  ghost predicate Fits(cs: Classes, g: Heap, k: Kind, v: Value)
  {
    match k
    case PlainField => v.Plain? && (PlainJson(v.json) || v.json.JNull?)
    case PointerField(nullOK) => v.Pointer? && if v.target.None? then nullOK else ListedNode(cs, g, v.target.value)
    case VectorField(ty, nullOK) =>
      v.Pointer? && if v.target.None? then nullOK else v.target.value < |g| && g[v.target.value].typ == ty
    case ElementsField => v.Elements? && forall i :: 0 <= i < |v.items| ==> ListedNode(cs, g, v.items[i])
  }

  ghost predicate ObjectOk(cs: Classes, g: Heap, o: Object)
  {
    && o.id >= 0 && o.typ in cs && |o.values| == |cs[o.typ].fields|
    && forall i :: 0 <= i < |o.values| ==> Fits(cs, g, cs[o.typ].fields[i].kind, o.values[i])
  }

  predicate IdsDiffer(g: Heap, a: Addr, b: Addr)
    requires a < |g| && b < |g|
  {
    g[a].id != g[b].id
  }

  ghost predicate WellTyped(cs: Classes, g: Heap)
  {
    && ClassesOk(cs)
    && (forall a :: 0 <= a < |g| ==> ObjectOk(cs, g, g[a]))
    && (forall a, b :: 0 <= a < b < |g| ==> IdsDiffer(g, a, b))
  }

  // ---------- the generator ----------

  datatype Written<T> = Written(out: T, refs: set<int>)

  ghost function Unwritten(g: Heap, refs: set<int>): set<Addr>
  {
    set a: Addr | a < |g| && g[a].id !in refs
  }

  function IdEntry(id: int): Entry
  {
    Entry("Node_ID", JNumber(id))
  }

  function TypeEntry(typ: string): Entry
  {
    Entry("Node_Type", JString(typ))
  }

  /** `generate` of a node; `refs` holds the ids of the nodes already begun. */
  function WriteNode(cs: Classes, g: Heap, a: Addr, refs: set<int>): (r: Written<Json>)
    requires WellTyped(cs, g) && a < |g|
    ensures refs <= r.refs && g[a].id in r.refs
    decreases Unwritten(g, refs), 0, 0
  {
    var o := g[a];
    if o.id in refs then Written(JObject([IdEntry(o.id)]), refs)
    else
      assert a in Unwritten(g, refs) && a !in Unwritten(g, refs + {o.id});
      var w := WriteFields(cs, g, cs[o.typ].fields, o.values, refs + {o.id});
      Written(JObject([IdEntry(o.id), TypeEntry(o.typ)] + w.out), w.refs)
  }

  /** `toJSON`: the fields in order, without those that are null. */
  function WriteFields(cs: Classes, g: Heap, fs: seq<Field>, vs: seq<Value>, refs: set<int>): (r: Written<seq<Entry>>)
    requires WellTyped(cs, g) && |fs| == |vs|
    requires forall i :: 0 <= i < |vs| ==> Fits(cs, g, fs[i].kind, vs[i])
    ensures refs <= r.refs
    decreases Unwritten(g, refs), 3, |fs|
  {
    if fs == [] then Written([], refs)
    else
      var w := WriteValue(cs, g, fs[0].kind, vs[0], refs);
      var rest := WriteFields(cs, g, fs[1..], vs[1..], w.refs);
      if w.out.None? then rest
      else Written([Entry(fs[0].name, w.out.value)] + rest.out, rest.refs)
  }

  function WriteValue(cs: Classes, g: Heap, k: Kind, v: Value, refs: set<int>): (r: Written<Option<Json>>)
    requires WellTyped(cs, g) && Fits(cs, g, k, v)
    ensures refs <= r.refs
    decreases Unwritten(g, refs), 2, 0
  {
    match v
    case Plain(json) => Written(Some(json), refs)
    case Pointer(None) => Written(None, refs)
    case Pointer(Some(b)) => (var w := WriteNode(cs, g, b, refs); Written(Some(w.out), w.refs))
    case Elements(items) => (var w := WriteItems(cs, g, items, refs); Written(Some(JVector(w.out)), w.refs))
  }

  function WriteItems(cs: Classes, g: Heap, items: seq<Addr>, refs: set<int>): (r: Written<seq<Json>>)
    requires WellTyped(cs, g) && forall i :: 0 <= i < |items| ==> ListedNode(cs, g, items[i])
    ensures refs <= r.refs
    ensures |r.out| == |items|
    decreases Unwritten(g, refs), 1, |items|
  {
    if items == [] then Written([], refs)
    else
      assert ListedNode(cs, g, items[0]);
      var w := WriteNode(cs, g, items[0], refs);
      var rest := WriteItems(cs, g, items[1..], w.refs);
      Written([w.out] + rest.out, rest.refs)
  }

  /** A whole graph, from its root. */
  function Write(cs: Classes, g: Heap, root: Addr): Json
    requires WellTyped(cs, g) && root < |g|
  {
    WriteNode(cs, g, root, {}).out
  }

  // ---------- the loader ----------

  /** The objects built so far, `refs` from ids to some of them, and the first id no node has had. */
  datatype State = State(heap: Heap, refs: map<int, Addr>, currentId: int)

  datatype Loaded<T> = Loaded(value: T, st: State)

  /** `get(obj, field)` of a value that may not be an object. */
  function EntryOf(j: Json, key: string): (r: Option<Json>)
    ensures r.Some? ==> j.JObject? && r.value < j
  {
    if !j.JObject? then None
    else
      var i := Find(j.entries, key);
      if i == |j.entries| then None else Some(j.entries[i].value)
  }

  /** `get_node`, for a pointer that is then converted to the field's type: no result stands for the
      null pointer that the conversion fails on. */
  function LoadPointer(cs: Classes, j: Json, st: State): (r: Option<Loaded<Addr>>)
    decreases j, 1
  {
    match EntryOf(j, "Node_ID")
    case Some(JNumber(id)) =>
      if id < 0 then None
      else if id in st.refs then Some(Loaded(st.refs[id], st))
      else
        (match EntryOf(j, "Node_Type")
         case Some(JString(typ)) =>
           if typ in cs && cs[typ].listed then
             match LoadObject(cs, typ, j, st)
             case Some(Loaded(a, st')) => Some(Loaded(a, st'.(refs := st'.refs[id := a])))
             case None => None
           else None
         case _ => None)
    case _ => None
  }

  /** The loading constructor of the class `typ`. */
  function LoadObject(cs: Classes, typ: string, j: Json, st: State): (r: Option<Loaded<Addr>>)
    requires typ in cs
    decreases j, 0, 1
  {
    match OwnId(j, st.currentId)
    case None => None
    case Some(id) =>
      match LoadFields(cs, cs[typ].fields, j, st.(currentId := if id >= st.currentId then id + 1 else st.currentId))
      case Some(Loaded(vs, st1)) => Some(Loaded(|st1.heap|, st1.(heap := st1.heap + [Object(id, typ, vs)])))
      case None => None
  }

  /** The id in the text, or a new one if it has none. */
  function OwnId(j: Json, currentId: int): Option<int>
  {
    match EntryOf(j, "Node_ID")
    case None => Some(currentId)
    case Some(JNumber(id)) => Some(if id < 0 then currentId else id)
    case Some(_) => None
  }

  function LoadFields(cs: Classes, fs: seq<Field>, j: Json, st: State): (r: Option<Loaded<seq<Value>>>)
    decreases j, 0, 0, |fs|
  {
    if fs == [] then Some(Loaded([], st))
    else
      match LoadField(cs, fs[0], j, st)
      case None => None
      case Some(Loaded(v, st1)) =>
        match LoadFields(cs, fs[1..], j, st1)
        case None => None
        case Some(Loaded(vs, st2)) => Some(Loaded([v] + vs, st2))
  }

  /** `load` of a field by its name; one that is absent keeps its default. */
  function LoadField(cs: Classes, f: Field, j: Json, st: State): (r: Option<Loaded<Value>>)
    decreases j, 0, 0, 0
  {
    match EntryOf(j, f.name)
    case None => Some(Loaded(Default(f.kind), st))
    case Some(v) => LoadValue(cs, f.kind, v, st)
  }

  function Default(k: Kind): Value
  {
    match k
    case PlainField => Plain(JNull)
    case ElementsField => Elements([])
    case _ => Pointer(None)
  }

  /** `unpack_json`.  A string cannot be read from `null`, and the overload for a pointer to a vector
      calls the vector's constructor itself. */
  function LoadValue(cs: Classes, k: Kind, j: Json, st: State): (r: Option<Loaded<Value>>)
    decreases j, 2
  {
    match k
    case PlainField => if PlainJson(j) then Some(Loaded(Plain(j), st)) else None
    case PointerField(_) =>
      (match LoadPointer(cs, j, st)
       case Some(Loaded(a, st1)) => Some(Loaded(Pointer(Some(a)), st1))
       case None => None)
    case VectorField(typ, _) =>
      if typ !in cs then None
      else
        (match LoadObject(cs, typ, j, st)
         case Some(Loaded(a, st1)) => Some(Loaded(Pointer(Some(a)), st1))
         case None => None)
    case ElementsField =>
      if !j.JVector? then None
      else
        match LoadItems(cs, j.items, st)
        case Some(Loaded(items, st1)) => Some(Loaded(Elements(items), st1))
        case None => None
  }

  function LoadItems(cs: Classes, js: seq<Json>, st: State): (r: Option<Loaded<seq<Addr>>>)
    ensures r.Some? ==> |r.value.value| == |js|
    decreases js, 0
  {
    if js == [] then Some(Loaded([], st))
    else
      match LoadPointer(cs, js[0], st)
      case None => None
      case Some(Loaded(a, st1)) =>
        match LoadItems(cs, js[1..], st1)
        case None => None
        case Some(Loaded(rest, st2)) => Some(Loaded([a] + rest, st2))
  }

  /** A whole text, by a program that has given out the ids below `currentId`. */
  function Load(cs: Classes, j: Json, currentId: int): Option<Loaded<Addr>>
  {
    LoadPointer(cs, j, State([], map[], currentId))
  }

  // ---------- what a round trip means ----------

  /** A pointer field, or the place of one element among those of a vector. */
  datatype Slot = Slot(owner: Addr, field: nat, item: nat)

  function TargetOf(g: Heap, s: Slot): Option<Addr>
  {
    if s.owner >= |g| || s.field >= |g[s.owner].values| then None
    else
      match g[s.owner].values[s.field]
      case Plain(_) => None
      case Pointer(target) => if s.item == 0 then target else None
      case Elements(items) => if s.item < |items| then Some(items[s.item]) else None
  }

  /** The field's type is a vector. */
  predicate IsVector(cs: Classes, g: Heap, s: Slot)
  {
    && s.owner < |g| && g[s.owner].typ in cs && s.field < |cs[g[s.owner].typ].fields|
    && cs[g[s.owner].typ].fields[s.field].kind.VectorField?
  }

  /** `w` holds what `v` holds, where the object at `y` stands for the one at `src[y]`. */
  ghost predicate Linked(v: Value, w: Value, src: seq<Addr>)
  {
    match v
    case Plain(_) => w == v
    case Pointer(None) => w == v
    case Pointer(Some(b)) => w.Pointer? && w.target.Some? && w.target.value < |src| && src[w.target.value] == b
    case Elements(items) =>
      && w.Elements? && |w.items| == |items|
      && forall i :: 0 <= i < |items| ==> w.items[i] < |src| && src[w.items[i]] == items[i]
  }

  ghost predicate Copy(o: Object, p: Object, src: seq<Addr>)
  {
    && o.id == p.id && o.typ == p.typ && |o.values| == |p.values|
    && forall i :: 0 <= i < |o.values| ==> Linked(o.values[i], p.values[i], src)
  }

  /** The heap `h` from its root `top` is a copy of the part of `g` that `root` reaches, one object
      for one: `src` tells which object of `g` each stands for. */
  ghost predicate Isomorphic(g: Heap, root: Addr, h: Heap, top: Addr, src: seq<Addr>)
  {
    && |src| == |h| && Distinct(src)
    && top < |src| && src[top] == root
    && forall y :: 0 <= y < |h| ==> src[y] < |g| && Copy(g[src[y]], h[y], src)
  }

  /** What was loaded is a copy of the graph. */
  ghost predicate Restores(g: Heap, root: Addr, r: Option<Loaded<Addr>>)
  {
    r.Some? && exists src :: Isomorphic(g, root, r.value.st.heap, r.value.value, src)
  }

  ghost predicate RoundTrips(cs: Classes, g: Heap, root: Addr, currentId: int)
    requires WellTyped(cs, g) && root < |g|
  {
    Restores(g, root, Load(cs, Write(cs, g, root), currentId))
  }

  // ---------- which graphs can be loaded ----------

  ghost function Rank(order: seq<Addr>, a: Addr): (i: nat)
    requires a in order
    ensures i < |order| && order[i] == a
  {
    var i: nat :| i < |order| && order[i] == a;
    i
  }

  ghost predicate Downward(g: Heap, order: seq<Addr>, s: Slot)
  {
    s.owner in order && TargetOf(g, s).Some? ==>
      TargetOf(g, s).value in order && Rank(order, TargetOf(g, s).value) < Rank(order, s.owner)
  }

  ghost predicate Unshared(cs: Classes, g: Heap, order: seq<Addr>, s: Slot, t: Slot)
  {
    s.owner in order && t.owner in order && IsVector(cs, g, s) && TargetOf(g, s).Some?
      && TargetOf(g, s) == TargetOf(g, t)
    ==> s == t
  }

  /** No string of the object is null. */
  ghost predicate NoNull(o: Object)
  {
    forall i :: 0 <= i < |o.values| ==> o.values[i] != Plain(JNull)
  }

  /** `order` lists what the root reaches, itself last and every object after those it points to
      (there is no cycle); none of them has a null string; and what a field of vector type points to is
      pointed to by nothing else. */
  ghost predicate Loadable(cs: Classes, g: Heap, root: Addr, order: seq<Addr>)
  {
    && order != [] && order[|order| - 1] == root && Distinct(order)
    && (forall a :: a in order ==> a < |g| && NoNull(g[a]))
    && (forall s: Slot :: Downward(g, order, s))
    && (forall s: Slot, t: Slot :: Unshared(cs, g, order, s, t))
  }
}
