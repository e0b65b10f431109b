/** Vectors of nodes, what visiting their elements makes of them, and the index of declarations by name. */
module Vectors {
  import opened Options

  /** An element: a null pointer, or a node and the name it declares if it is a declaration. */
  datatype Elem = Null | Elem(id: nat, name: Option<string>)

  /** What a visitor returns for an element: a pointer, a vector of the same kind, a vector of another
      kind (`None` for an element of a wrong type), or a node of a wrong type. */
  datatype Found = Item(x: Elem) | Many(xs: seq<Elem>) | Other(ys: seq<Option<Elem>>) | Wrong

  type Visitor<!S> = (S, Elem) -> (S, Found)

  // ---------- what a visit makes of a list ----------

  function AllOf(ys: seq<Option<Elem>>): (r: Option<seq<Elem>>)
    ensures r.Some? ==> |r.value| == |ys|
    ensures r.Some? <==> forall i :: 0 <= i < |ys| ==> ys[i].Some?
    ensures r.Some? ==> forall i :: 0 <= i < |ys| ==> ys[i] == Some(r.value[i])
  {
    if ys == [] then Some([])
    else
      match (ys[0], AllOf(ys[1..]))
      case (Some(y), Some(rest)) => Some([y] + rest)
      case _ => None
  }

  /** The elements that stand in the place of `x`; none if the visitor returned a wrong type. */
  function Instead(x: Elem, f: Found, indexed: bool): Option<seq<Elem>>
  {
    match f
    case Item(Null) => Some(if x == Null then [x] else [])
    case Item(y) => Some([y])
    case Many(xs) => Some(xs)
    case Other(ys) => if indexed then None else AllOf(ys)
    case Wrong => None
  }

  datatype Visited<S> = Visited(s: S, out: Option<seq<Elem>>)

  /** From left to right, every element replaced by what stands in its place. */
  function FlatMap<S>(v: Visitor<S>, s: S, xs: seq<Elem>, indexed: bool): Visited<S>
  {
    if xs == [] then Visited(s, Some([]))
    else
      var (s1, f) := v(s, xs[0]);
      match Instead(xs[0], f, indexed)
      case None => Visited(s1, None)
      case Some(here) =>
        var rest := FlatMap(v, s1, xs[1..], indexed);
        Visited(rest.s, if rest.out.Some? then Some(here + rest.out.value) else None)
  }

  /** Visiting a list is visiting its two parts one after the other. */
  lemma {:induction false} FlatMapSplits<S>(v: Visitor<S>, s: S, xs: seq<Elem>, ys: seq<Elem>, indexed: bool)
    ensures (var a := FlatMap(v, s, xs, indexed);
      FlatMap(v, s, xs + ys, indexed) ==
      if a.out.None? then a
      else
        var b := FlatMap(v, a.s, ys, indexed);
        Visited(b.s, if b.out.Some? then Some(a.out.value + b.out.value) else None))
  {
    if xs == [] {
      assert xs + ys == ys;
      var b := FlatMap(v, s, ys, indexed);
      if b.out.Some? { assert [] + b.out.value == b.out.value; }
    } else {
      var (s1, f) := v(s, xs[0]);
      assert (xs + ys)[1..] == xs[1..] + ys;
      FlatMapSplits(v, s1, xs[1..], ys, indexed);
      var here := Instead(xs[0], f, indexed);
      if here.Some? {
        var a := FlatMap(v, s1, xs[1..], indexed);
        if a.out.Some? {
          var b := FlatMap(v, a.s, ys, indexed);
          if b.out.Some? { assert here.value + (a.out.value + b.out.value) == here.value + a.out.value + b.out.value; }
        }
      }
    }
  }

  /** A visitor that returns each element itself leaves the list as it is. */
  lemma {:induction false} FlatMapSame<S>(v: Visitor<S>, s: S, xs: seq<Elem>, indexed: bool)
    requires forall t: S, x: Elem :: v(t, x).1 == Item(x)
    ensures FlatMap(v, s, xs, indexed).out == Some(xs)
  {
    if xs != [] {
      FlatMapSame(v, v(s, xs[0]).0, xs[1..], indexed);
      assert xs == [xs[0]] + xs[1..];
      assert v(s, xs[0]).1 == Item(xs[0]) && Instead(xs[0], Item(xs[0]), indexed) == Some([xs[0]]);
    }
  }

  /** What the visit of one element makes of it, whatever stands around it: where null is returned it
      vanishes, unless it was null; another element takes its place; and so do the elements of a vector, if
      all of them have the right type. */
  lemma ElementBecomes<S>(v: Visitor<S>, s: S, pre: seq<Elem>, x: Elem, post: seq<Elem>, indexed: bool)
    requires FlatMap(v, s, pre, indexed).out.Some?
    requires var a := FlatMap(v, s, pre, indexed); FlatMap(v, v(a.s, x).0, post, indexed).out.Some?
    ensures var a := FlatMap(v, s, pre, indexed);
      var (s1, f) := v(a.s, x);
      var before, after := a.out.value, FlatMap(v, s1, post, indexed).out.value;
      var all := FlatMap(v, s, pre + [x] + post, indexed).out;
      && (f == Item(Null) && x != Null ==> all == Some(before + after))
      && (forall y :: f == Item(y) && (y != Null || x == Null) ==> all == Some(before + [y] + after))
      && (forall ys :: f == Many(ys) ==> all == Some(before + ys + after))
      && (f.Other? && !indexed && AllOf(f.ys).Some? ==> all == Some(before + AllOf(f.ys).value + after))
      && (f.Wrong? || (f.Other? && (indexed || None in f.ys)) ==> all == None)
  {
    FlatMapMiddle(v, s, pre, x, post, indexed);
    var a := FlatMap(v, s, pre, indexed);
    assert a.out.value + [] == a.out.value;
  }

  lemma FlatMapMiddle<S>(v: Visitor<S>, s: S, pre: seq<Elem>, x: Elem, post: seq<Elem>, indexed: bool)
    requires FlatMap(v, s, pre, indexed).out.Some?
    requires var a := FlatMap(v, s, pre, indexed); FlatMap(v, v(a.s, x).0, post, indexed).out.Some?
    ensures var a := FlatMap(v, s, pre, indexed);
      var here, b := Instead(x, v(a.s, x).1, indexed), FlatMap(v, v(a.s, x).0, post, indexed);
      FlatMap(v, s, pre + [x] + post, indexed).out
        == if here.Some? then Some(a.out.value + here.value + b.out.value) else None
  {
    var a := FlatMap(v, s, pre, indexed);
    var here, b := Instead(x, v(a.s, x).1, indexed), FlatMap(v, v(a.s, x).0, post, indexed);
    Regroup(pre, [x], post);
    FlatMapSplits(v, s, pre, [x] + post, indexed);
    FlatMapFirst(v, a.s, x, post, indexed);
    if here.Some? { Regroup(a.out.value, here.value, b.out.value); }
  }

  lemma FlatMapFirst<S>(v: Visitor<S>, s: S, x: Elem, post: seq<Elem>, indexed: bool)
    requires FlatMap(v, v(s, x).0, post, indexed).out.Some?
    ensures var here, b := Instead(x, v(s, x).1, indexed), FlatMap(v, v(s, x).0, post, indexed);
      FlatMap(v, s, [x] + post, indexed).out == if here.Some? then Some(here.value + b.out.value) else None
  {
    assert ([x] + post)[1..] == post;
  }

  lemma Regroup(a: seq<Elem>, b: seq<Elem>, c: seq<Elem>)
    ensures a + b + c == a + (b + c)
  {}

  // ---------- the plain vector ----------

  class Vector {
    var vec: seq<Elem>

    constructor (xs: seq<Elem>)
      ensures vec == xs
    {
      vec := xs;
    }

    method Erase(i: nat)
      requires i < |vec|
      modifies this
      ensures vec == old(vec)[..i] + old(vec)[i + 1..]
    {
      vec := vec[..i] + vec[i + 1..];
    }

    method Insert(i: nat, xs: seq<Elem>)
      requires i <= |vec|
      modifies this
      ensures vec == old(vec)[..i] + xs + old(vec)[i..]
    {
      vec := vec[..i] + xs + vec[i..];
    }

    /** The vector splices itself while it is walked over, and ends as the concatenation of what
        stands in the place of its elements; what a visitor puts in is not visited again. */
    method VisitChildren<S>(v: Visitor<S>, start: S) returns (ok: bool, s: S)
      modifies this
      ensures (var r := FlatMap(v, start, old(vec), false);
        ok == r.out.Some? && (ok ==> vec == r.out.value && s == r.s))
    {
      s := start;
      ghost var all := FlatMap(v, start, vec, false);
      var i := 0;
      assert vec[0..] == vec && vec[..0] == [];
      ContinuesFrom(all);
      while i < |vec|
        invariant i <= |vec|
        invariant Continues(all, vec[..i], FlatMap(v, s, vec[i..], false))
        decreases |vec| - i
      {
        ghost var done, todo, s0 := vec[..i], vec[i..], s;
        var returned := v(s, vec[i]);
        s := returned.0;
        assert vec[i] == todo[0];
        ghost var here := Instead(todo[0], returned.1, false);
        if here.None? { StopsHere(v, s0, todo, all, done, false); }
        ok, i := Splice(i, returned.1);
        if !ok { return; }
        assert vec[i..] == todo[1..] && vec[..i] == done + here.value;
        GoesOn(v, s0, todo, all, done, false);
      }
      ok := true;
      assert vec[..i] == vec && vec[i..] == [];
      assert vec + [] == vec;
    }

    /** Puts what the visitor has returned in the place of the `i`-th element and passes over it. */
    method Splice(i: nat, f: Found) returns (ok: bool, next: nat)
      requires i < |vec|
      modifies this
      ensures ok == Instead(old(vec)[i], f, false).Some?
      ensures ok ==>
        (var here := Instead(old(vec)[i], f, false).value;
         vec == old(vec)[..i] + here + old(vec)[i + 1..] && next == i + |here|)
      ensures ok ==> |vec| - next == |old(vec)| - i - 1
    {
      ok, next := true, i;
      if f == Item(Null) && vec[i] != Null {
        Erase(i);
      } else if f == Item(vec[i]) {
        next := i + 1;
      } else if f.Many? {
        Erase(i);
        Insert(i, f.xs);
        next := i + |f.xs|;
      } else if f.Other? {
        if f.ys == [] {
          Erase(i);
        } else if AllOf(f.ys).None? {
          ok := false;
        } else {
          Insert(i, seq(|f.ys| - 1, n => Null));
          next := PutAll(i, AllOf(f.ys).value);
        }
      } else if f.Item? {
        vec := vec[i := f.x];
        next := i + 1;
      } else {
        ok := false;
      }
    }

    /** Overwrites the elements from the `i`-th on. */
    method PutAll(i: nat, xs: seq<Elem>) returns (j: nat)
      requires i + |xs| <= |vec|
      modifies this
      ensures j == i + |xs| && vec == old(vec)[..i] + xs + old(vec)[i + |xs|..]
    {
      j := i;
      for n := 0 to |xs|
        invariant j == i + n && |vec| == |old(vec)|
        invariant vec == old(vec)[..i] + xs[..n] + old(vec)[i + n..]
      {
        vec := vec[j := xs[n]];
        j := j + 1;
      }
    }
  }

  /** `all` is `done` and then `rest`. */
  ghost predicate Continues<S>(all: Visited<S>, done: seq<Elem>, rest: Visited<S>)
  {
    all == Visited(rest.s, if rest.out.Some? then Some(done + rest.out.value) else None)
  }

  lemma ContinuesFrom<S>(all: Visited<S>)
    ensures Continues(all, [], all)
  {
    if all.out.Some? { assert [] + all.out.value == all.out.value; }
  }

  lemma GoesOn<S>(v: Visitor<S>, s: S, xs: seq<Elem>, all: Visited<S>, done: seq<Elem>, indexed: bool)
    requires xs != [] && Continues(all, done, FlatMap(v, s, xs, indexed))
    requires Instead(xs[0], v(s, xs[0]).1, indexed).Some?
    ensures Continues(all, done + Instead(xs[0], v(s, xs[0]).1, indexed).value,
                      FlatMap(v, v(s, xs[0]).0, xs[1..], indexed))
  {
    var here := Instead(xs[0], v(s, xs[0]).1, indexed).value;
    var rest := FlatMap(v, v(s, xs[0]).0, xs[1..], indexed);
    if rest.out.Some? { assert done + (here + rest.out.value) == done + here + rest.out.value; }
  }

  lemma StopsHere<S>(v: Visitor<S>, s: S, xs: seq<Elem>, all: Visited<S>, done: seq<Elem>, indexed: bool)
    requires xs != [] && Continues(all, done, FlatMap(v, s, xs, indexed))
    requires Instead(xs[0], v(s, xs[0]).1, indexed).None?
    ensures all.out.None?
  {}
}
