/** Vectors that keep an index of their declarations by name. */
module IndexedVectors {
  import opened Options
  import opened Vectors

  type Index = map<string, Elem>

  // ---------- the index of a list ----------

  function NameOf(x: Elem): Option<string>
  {
    if x.Null? then None else x.name
  }

  ghost predicate Differ(x: Elem, y: Elem)
  {
    NameOf(x).Some? ==> NameOf(x) != NameOf(y)
  }

  /** No two elements declare the same name. */
  ghost predicate NoDups(xs: seq<Elem>)
  {
    forall i, j :: 0 <= i < j < |xs| ==> Differ(xs[i], xs[j])
  }

  ghost predicate IsDeclared(xs: seq<Elem>, name: string)
  {
    exists i :: 0 <= i < |xs| && NameOf(xs[i]) == Some(name)
  }

  ghost predicate Free(xs: seq<Elem>, x: Elem)
  {
    NameOf(x).Some? ==> !IsDeclared(xs, NameOf(x).value)
  }

  /** The index maps exactly the names declared in the list, each to the element that declares it. */
  ghost predicate Agrees(d: Index, xs: seq<Elem>)
  {
    && (forall i :: 0 <= i < |xs| && NameOf(xs[i]).Some? ==> Holds(d, xs[i]))
    && (forall name :: name in d ==> IsDeclared(xs, name))
  }

  ghost predicate Holds(d: Index, x: Elem)
    requires NameOf(x).Some?
  {
    NameOf(x).value in d && d[NameOf(x).value] == x
  }

  ghost predicate Indexed(d: Index, xs: seq<Elem>)
  {
    NoDups(xs) && Agrees(d, xs)
  }

  function With(xs: seq<Elem>, p: nat, x: Elem): seq<Elem>
    requires p <= |xs|
  {
    xs[..p] + [x] + xs[p..]
  }

  function Without(xs: seq<Elem>, p: nat): seq<Elem>
    requires p < |xs|
  {
    xs[..p] + xs[p + 1..]
  }

  function Added(d: Index, x: Elem): Index
  {
    if NameOf(x).None? || NameOf(x).value in d then d else d[NameOf(x).value := x]
  }

  function Removed(d: Index, x: Elem): Index
  {
    if NameOf(x).None? then d else d - {NameOf(x).value}
  }

  lemma WithAt(xs: seq<Elem>, p: nat, x: Elem, i: nat)
    requires p <= |xs| && i <= |xs|
    ensures With(xs, p, x)[i] == if i < p then xs[i] else if i == p then x else xs[i - 1]
  {}

  lemma WithNoDups(xs: seq<Elem>, p: nat, x: Elem)
    requires p <= |xs|
    ensures NoDups(With(xs, p, x)) <==> NoDups(xs) && Free(xs, x)
  {
    var ys := With(xs, p, x);
    if NoDups(ys) {
      forall i, j | 0 <= i < j < |xs| ensures Differ(xs[i], xs[j]) {
        var i1, j1 := if i < p then i else i + 1, if j < p then j else j + 1;
        assert ys[i1] == xs[i] && ys[j1] == xs[j];
      }
      forall i | 0 <= i < |xs| ensures NameOf(x).Some? ==> NameOf(xs[i]) != NameOf(x) {
        var i1 := if i < p then i else i + 1;
        assert ys[i1] == xs[i] && ys[p] == x;
        if i < p { assert Differ(ys[i1], ys[p]); } else { assert Differ(ys[p], ys[i1]); }
      }
    }
    if NoDups(xs) && Free(xs, x) {
      forall i, j | 0 <= i < j < |ys| ensures Differ(ys[i], ys[j]) {
        WithAt(xs, p, x, i);
        WithAt(xs, p, x, j);
      }
    }
  }

  lemma WithIndexed(d: Index, xs: seq<Elem>, p: nat, x: Elem)
    requires p <= |xs| && Indexed(d, xs)
    ensures Free(xs, x) <==> (NameOf(x).Some? ==> NameOf(x).value !in d)
    ensures Free(xs, x) ==> Indexed(Added(d, x), With(xs, p, x))
  {
    if NameOf(x).Some? && IsDeclared(xs, NameOf(x).value) {
      var i :| 0 <= i < |xs| && NameOf(xs[i]) == NameOf(x);
      assert Holds(d, xs[i]);
    }
    if Free(xs, x) {
      WithNoDups(xs, p, x);
      var ys, e := With(xs, p, x), Added(d, x);
      forall i | 0 <= i < |ys| && NameOf(ys[i]).Some? ensures Holds(e, ys[i]) {
        WithAt(xs, p, x, i);
        if i != p { var k := if i < p then i else i - 1; assert Holds(d, xs[k]); }
      }
      forall name | name in e ensures IsDeclared(ys, name) {
        if name in d {
          var i :| 0 <= i < |xs| && NameOf(xs[i]) == Some(name);
          WithAt(xs, p, x, if i < p then i else i + 1);
        } else {
          WithAt(xs, p, x, p);
        }
      }
    }
  }

  lemma WithoutIndexed(d: Index, xs: seq<Elem>, p: nat)
    requires p < |xs| && Indexed(d, xs)
    ensures NameOf(xs[p]).Some? ==> NameOf(xs[p]).value in d
    ensures Indexed(Removed(d, xs[p]), Without(xs, p))
  {
    var ys, x := Without(xs, p), xs[p];
    assert With(ys, p, x) == xs;
    WithNoDups(ys, p, x);
    if NameOf(x).Some? { assert Holds(d, x); }
    var e := Removed(d, x);
    forall i | 0 <= i < |ys| && NameOf(ys[i]).Some? ensures Holds(e, ys[i]) {
      var k := if i < p then i else i + 1;
      assert ys[i] == xs[k];
      assert Holds(d, xs[k]);
      if k < p { assert Differ(xs[k], xs[p]); } else { assert Differ(xs[p], xs[k]); }
    }
    forall name | name in e ensures IsDeclared(ys, name) {
      var k :| 0 <= k < |xs| && NameOf(xs[k]) == Some(name);
      var i := if k < p then k else k - 1;
      assert ys[i] == xs[k];
    }
  }

  /** `xs` put in at `p`, one after the other. */
  function WithAll(xs: seq<Elem>, p: nat, ys: seq<Elem>): seq<Elem>
    requires p <= |xs|
  {
    xs[..p] + ys + xs[p..]
  }

  lemma WithMore(xs: seq<Elem>, p: nat, ys: seq<Elem>, n: nat)
    requires p <= |xs| && n < |ys|
    ensures WithAll(xs, p, ys[..n + 1]) == With(WithAll(xs, p, ys[..n]), p + n, ys[n])
  {
    assert ys[..n + 1] == ys[..n] + [ys[n]];
    var l := WithAll(xs, p, ys[..n]);
    assert l[..p + n] == xs[..p] + ys[..n] && l[p + n..] == xs[p..];
  }

  /** At every moment of the visit, no two elements in the list declare the same name. */
  ghost predicate CleanRun<S>(v: Visitor<S>, s: S, done: seq<Elem>, todo: seq<Elem>)
    decreases |todo|
  {
    && NoDups(done + todo)
    && (todo != [] ==>
          var (s1, f) := v(s, todo[0]);
          var here := Instead(todo[0], f, true);
          here.Some? ==> CleanRun(v, s1, done + here.value, todo[1..]))
  }

  // ---------- the indexed vector ----------

  class IndexedVector {
    var vec: seq<Elem>
    var declarations: Index
    /** How many duplicate declarations have been reported. */
    var errors: nat

    ghost predicate Valid()
      reads this
    {
      Indexed(declarations, vec)
    }

    constructor ()
      ensures Valid() && vec == [] && errors == 0
    {
      vec, declarations, errors := [], map[], 0;
    }

    method InsertInMap(a: Elem)
      modifies this
      ensures vec == old(vec) && declarations == Added(old(declarations), a)
      ensures errors == old(errors) + if NameOf(a).Some? && NameOf(a).value in old(declarations) then 1 else 0
    {
      if NameOf(a).None? { return; }
      var name := NameOf(a).value;
      if name in declarations {
        errors := errors + 1;
      } else {
        declarations := declarations[name := a];
      }
    }

    /** `ok` is false if the name is missing, which is a bug in the compiler. */
    method RemoveFromMap(a: Elem) returns (ok: bool)
      modifies this
      ensures vec == old(vec) && errors == old(errors)
      ensures ok <==> NameOf(a).Some? ==> NameOf(a).value in old(declarations)
      ensures declarations == if ok then Removed(old(declarations), a) else old(declarations)
    {
      if NameOf(a).None? { return true; }
      var name := NameOf(a).value;
      if name !in declarations { return false; }
      declarations := declarations - {name};
      ok := true;
    }

    /** The declaration of the name, if there is one. */
    method GetDeclaration(name: string) returns (r: Option<Elem>)
      ensures Valid() ==>
        match r { case Some(x) => x in vec && NameOf(x) == Some(name) case None => !IsDeclared(vec, name) }
    {
      if name in declarations {
        r := Some(declarations[name]);
        if Valid() {
          assert IsDeclared(vec, name);
          ghost var i :| 0 <= i < |vec| && NameOf(vec[i]) == Some(name);
          assert Holds(declarations, vec[i]);
        }
      } else {
        r := None;
      }
    }

    method Clear()
      modifies this
      ensures Valid() && vec == [] && errors == old(errors)
    {
      vec, declarations := [], map[];
    }

    method Erase(i: nat) returns (ok: bool)
      requires i < |vec|
      modifies this
      ensures errors == old(errors)
      ensures vec == if ok then Without(old(vec), i) else old(vec)
      ensures old(Valid()) ==> ok && Valid()
    {
      if Valid() { WithoutIndexed(declarations, vec, i); }
      ok := RemoveFromMap(vec[i]);
      if ok { vec := vec[..i] + vec[i + 1..]; }
    }

    /** A duplicate is reported exactly if the vector then has one; otherwise the index is right. */
    method Insert(i: nat, xs: seq<Elem>)
      requires i <= |vec|
      modifies this
      ensures vec == WithAll(old(vec), i, xs) && errors >= old(errors)
      ensures old(Valid()) ==> (errors == old(errors) <==> NoDups(vec)) && (NoDups(vec) ==> Valid())
    {
      ghost var valid := Valid();
      assert WithAll(vec, i, xs[..0]) == vec;
      for n := 0 to |xs|
        invariant vec == old(vec) && errors >= old(errors)
        invariant valid ==> (errors == old(errors) <==> NoDups(WithAll(vec, i, xs[..n])))
        invariant valid && errors == old(errors) ==> Indexed(declarations, WithAll(vec, i, xs[..n]))
      {
        WithMore(vec, i, xs, n);
        ghost var l := WithAll(vec, i, xs[..n]);
        WithNoDups(l, i + n, xs[n]);
        if valid && errors == old(errors) { WithIndexed(declarations, l, i + n, xs[n]); }
        InsertInMap(xs[n]);
      }
      assert xs[..|xs|] == xs;
      vec := vec[..i] + xs + vec[i..];
    }

    method InsertOne(i: nat, x: Elem)
      requires i <= |vec|
      modifies this
      ensures vec == With(old(vec), i, x) && errors >= old(errors)
      ensures old(Valid()) ==> (errors == old(errors) <==> NoDups(vec)) && (NoDups(vec) ==> Valid())
    {
      WithNoDups(vec, i, x);
      if Valid() { WithIndexed(declarations, vec, i, x); }
      InsertInMap(x);
      vec := vec[..i] + [x] + vec[i..];
    }

    method Replace(i: nat, x: Elem) returns (ok: bool)
      requires i < |vec|
      modifies this
      ensures errors >= old(errors)
      ensures vec == if ok then old(vec)[i := x] else old(vec)
      ensures old(Valid()) ==> ok && (errors == old(errors) <==> NoDups(vec)) && (NoDups(vec) ==> Valid())
    {
      ghost var others := Without(vec, i);
      assert With(others, i, x) == vec[i := x];
      if Valid() {
        WithoutIndexed(declarations, vec, i);
        WithIndexed(Removed(declarations, vec[i]), others, i, x);
      }
      WithNoDups(others, i, x);
      ok := RemoveFromMap(vec[i]);
      if !ok { return; }
      vec := vec[i := x];
      InsertInMap(x);
    }

    method Append(xs: seq<Elem>)
      modifies this
      ensures vec == old(vec) + xs && errors >= old(errors)
      ensures old(Valid()) ==> (errors == old(errors) <==> NoDups(vec)) && (NoDups(vec) ==> Valid())
    {
      assert WithAll(vec, |vec|, xs) == vec + xs;
      Insert(|vec|, xs);
    }

    method PushBack(x: Elem)
      modifies this
      ensures vec == old(vec) + [x] && errors >= old(errors)
      ensures old(Valid()) ==> (errors == old(errors) <==> NoDups(vec)) && (NoDups(vec) ==> Valid())
    {
      assert With(vec, |vec|, x) == vec + [x];
      WithNoDups(vec, |vec|, x);
      if Valid() { WithIndexed(declarations, vec, |vec|, x); }
      vec := vec + [x];
      InsertInMap(x);
    }

    method PopBack() returns (ok: bool)
      modifies this
      ensures errors == old(errors)
      ensures old(Valid()) ==> ok == (old(vec) != []) && Valid()
      ensures ok ==> old(vec) != [] && vec == old(vec)[..|old(vec)| - 1]
      ensures !ok ==> vec == old(vec)
    {
      if vec == [] { return false; }
      var last := |vec| - 1;
      assert Without(vec, last) == vec[..last];
      if Valid() { WithoutIndexed(declarations, vec, last); }
      ok := RemoveFromMap(vec[last]);
      if ok { vec := vec[..last]; }
    }

    /** Every element is in the index under its own name. */
    method CheckValid() returns (ok: bool)
      ensures ok <==> forall i :: 0 <= i < |vec| ==> NameOf(vec[i]).Some? && Holds(declarations, vec[i])
    {
      for i := 0 to |vec|
        invariant forall k :: 0 <= k < i ==> NameOf(vec[k]).Some? && Holds(declarations, vec[k])
      {
        var name := NameOf(vec[i]);
        if name.None? || name.value !in declarations || declarations[name.value] != vec[i] {
          return false;
        }
      }
      ok := true;
    }

    /** The vector ends as the concatenation of what stands in the place of its elements.  From a
        right index, a duplicate is reported exactly if at some moment two elements declare the same
        name; if none is, the index is right again and no name is missed. */
    method VisitChildren<S>(v: Visitor<S>, start: S) returns (ok: bool, s: S)
      modifies this
      ensures (var r := FlatMap(v, start, old(vec), true); ok ==> r.out.Some? && vec == r.out.value && s == r.s)
      ensures errors >= old(errors)
      ensures old(Valid()) ==>
        && (errors == old(errors) <==> CleanRun(v, start, [], old(vec)))
        && (errors == old(errors) ==> Valid() && ok == FlatMap(v, start, old(vec), true).out.Some?)
    {
      s := start;
      ghost var valid, clean := Valid(), CleanRun(v, start, [], vec);
      ghost var all := FlatMap(v, start, vec, true);
      var i := 0;
      assert vec[0..] == vec && vec[..0] == [];
      ContinuesFrom(all);
      while i < |vec|
        invariant i <= |vec| && errors >= old(errors)
        invariant Continues(all, vec[..i], FlatMap(v, s, vec[i..], true))
        invariant valid ==> Reported(clean, errors == old(errors), v, s, vec[..i], vec[i..])
        invariant valid && errors == old(errors) ==> Valid()
        decreases |vec| - i
      {
        ghost var done, todo, s0, was := vec[..i], vec[i..], s, errors;
        var returned := v(s, vec[i]);
        s := returned.0;
        assert vec[i] == todo[0];
        ghost var here := Instead(todo[0], returned.1, true);
        if here.None? {
          StopsHere(v, s0, todo, all, done, true);
          EndsClean(clean, errors == old(errors), v, s0, done, todo);
        }
        ok, i := Splice(i, returned.1);
        if !ok { return; }
        assert vec[i..] == todo[1..] && vec[..i] == done + here.value;
        assert vec == (done + here.value) + todo[1..];
        GoesOn(v, s0, todo, all, done, true);
        if valid { ReportsOn(clean, was == old(errors), errors == old(errors), v, s0, done, todo); }
      }
      ok := true;
      assert vec[..i] == vec && vec[i..] == [];
      assert vec + [] == vec;
    }

    /** Puts what the visitor has returned in the place of the `i`-th element and passes over it. */
    method Splice(i: nat, f: Found) returns (ok: bool, next: nat)
      requires i < |vec|
      modifies this
      ensures ok ==>
        && Instead(old(vec)[i], f, true).Some?
        && (var here := Instead(old(vec)[i], f, true).value;
            vec == old(vec)[..i] + here + old(vec)[i + 1..] && next == i + |here|)
        && |vec| - next == |old(vec)| - i - 1
      ensures errors >= old(errors)
      ensures old(Valid()) ==>
        && ok == Instead(old(vec)[i], f, true).Some?
        && (ok ==> (errors == old(errors) <==> NoDups(vec)) && (NoDups(vec) ==> Valid()))
        && (!ok ==> errors == old(errors) && Valid())
    {
      ok, next := true, i;
      if f == Item(Null) && vec[i] != Null {
        ok := Erase(i);
      } else if f == Item(vec[i]) {
        next := i + 1;
      } else if f.Many? {
        ok := Erase(i);
        if !ok { return; }
        Insert(i, f.xs);
        next := i + |f.xs|;
      } else if f.Item? {
        ok := Replace(i, f.x);
        if !ok { return; }
        next := i + 1;
      } else {
        ok := false;
      }
    }
  }

  /** So far, an error has been reported unless the run has been clean. */
  ghost predicate Reported<S>(clean: bool, none: bool, v: Visitor<S>, s: S, done: seq<Elem>, todo: seq<Elem>)
  {
    clean <==> none && CleanRun(v, s, done, todo)
  }

  lemma EndsClean<S>(clean: bool, none: bool, v: Visitor<S>, s: S, done: seq<Elem>, todo: seq<Elem>)
    requires todo != [] && Instead(todo[0], v(s, todo[0]).1, true).None?
    ensures CleanRun(v, s, done, todo) <==> NoDups(done + todo)
  {}

  lemma ReportsOn<S>(clean: bool, none: bool, none1: bool, v: Visitor<S>, s: S, done: seq<Elem>, todo: seq<Elem>)
    requires todo != [] && Instead(todo[0], v(s, todo[0]).1, true).Some? && Reported(clean, none, v, s, done, todo)
    requires none ==> NoDups(done + todo)
    requires none1 ==> none
    requires (var here := Instead(todo[0], v(s, todo[0]).1, true).value;
      none ==> (none1 <==> NoDups((done + here) + todo[1..])))
    ensures (var here := Instead(todo[0], v(s, todo[0]).1, true).value;
      Reported(clean, none1, v, v(s, todo[0]).0, done + here, todo[1..]))
  {
    var (s1, f) := v(s, todo[0]);
    var here := Instead(todo[0], f, true).value;
    assert CleanRun(v, s, done, todo) <==> NoDups(done + todo) && CleanRun(v, s1, done + here, todo[1..]);
    assert CleanRun(v, s1, done + here, todo[1..]) ==> NoDups((done + here) + todo[1..]);
  }

  /** Exchanges the names `a` and `b`. */
  function Exchange(a: string, b: string): Visitor<int>
  {
    (s: int, x: Elem) =>
      (s, Item(if NameOf(x) == Some(a) then Elem(x.id, Some(b))
               else if NameOf(x) == Some(b) then Elem(x.id, Some(a))
               else x))
  }

  /** A visitor that exchanges the names of two declarations starts from a list without duplicates and
      ends in one, and still a duplicate is reported on the way: the new first element comes before
      the old second one has gone. */
  lemma ExchangeIsReported(a: string, b: string, i: nat, j: nat)
    requires a != b
    ensures (var xs := [Elem(i, Some(a)), Elem(j, Some(b))]; var r := FlatMap(Exchange(a, b), 0, xs, true).out;
      && NoDups(xs) && r == Some([Elem(i, Some(b)), Elem(j, Some(a))]) && NoDups(r.value)
      && !CleanRun(Exchange(a, b), 0, [], xs))
  {
    var x, y, v := Elem(i, Some(a)), Elem(j, Some(b)), Exchange(a, b);
    var x1, y1 := Elem(i, Some(b)), Elem(j, Some(a));
    var xs := [x, y];
    assert v(0, x) == (0, Item(x1)) && v(0, y) == (0, Item(y1));
    assert xs[1..] == [y] && [y][1..] == [];
    assert FlatMap(v, 0, [y], true) == Visited(0, Some([y1] + []));
    assert [y1] + [] == [y1] && [x1] + [y1] == [x1, y1];
    var mid := [] + [x1] + [y];
    assert mid == [x1, y] && !Differ(mid[0], mid[1]);
    assert !CleanRun(v, 0, [] + [x1], xs[1..]);
  }
}
