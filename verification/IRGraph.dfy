/**
 The IR as the visitors see it: nodes joined by pointers, possibly shared, and the tree that a
 pointer unfolds to.  A node is its tag (the concrete class, and what `operator==` compares of the
 fields that are not IR pointers: neither source positions nor the original names of an `ID`) and its
 pointers in the order in which `visit_children` visits them: those of its fields and the elements of
 its vectors.
 */
module IRGraph {

  type Id = nat

  /** `vector`: the class is a `Vector`, and such a node stands for its elements where it is returned
      for an element of another vector. */
  datatype Tag = Tag(name: string, vector: bool)

  /** A field, or an element of one of the vectors that are inlined in the node (or are the node). */
  datatype Kind = One | Elem(of: nat)
  datatype Slot<T> = Slot(kind: Kind, at: T)

  datatype Ptr = Null | Ref(id: Id)
  datatype Node = Node(tag: Tag, kids: seq<Slot<Ptr>>)
  type Nodes = map<Id, Node>

  datatype Tree = Nil | Tree(tag: Tag, kids: seq<Slot<Tree>>)

  function Ptrs(ks: seq<Slot<Ptr>>): (ps: seq<Ptr>)
    ensures |ps| == |ks| && forall i :: 0 <= i < |ks| ==> ps[i] == ks[i].at
  {
    seq(|ks|, i requires 0 <= i < |ks| => ks[i].at)
  }

  predicate IsVector(t: Tree)
  {
    t.Tree? && t.tag.vector
  }

  /** The finite tree `t` is what `p` unfolds to.  A pointer into a cycle unfolds to no tree. */
  ghost predicate Unfolds(g: Nodes, p: Ptr, t: Tree)
    decreases t
  {
    match t
    case Nil => p.Null?
    case Tree(l, ts) =>
      && p.Ref? && p.id in g && g[p.id].tag == l && |g[p.id].kids| == |ts|
      && forall i :: 0 <= i < |ts| ==>
           g[p.id].kids[i].kind == ts[i].kind && Unfolds(g, g[p.id].kids[i].at, ts[i].at)
  }

  ghost predicate UnfoldsAt(g: Nodes, s: Slot<Ptr>, u: Slot<Tree>)
  {
    s.kind == u.kind && Unfolds(g, s.at, u.at)
  }

  ghost predicate UnfoldsAll(g: Nodes, ks: seq<Slot<Ptr>>, ts: seq<Slot<Tree>>)
  {
    |ks| == |ts| && forall i {:trigger UnfoldsAt(g, ks[i], ts[i])} :: 0 <= i < |ts| ==> UnfoldsAt(g, ks[i], ts[i])
  }

  lemma UnfoldsNode(g: Nodes, p: Ptr, t: Tree)
    ensures Unfolds(g, p, t) <==>
      if t.Nil? then p.Null? else p.Ref? && p.id in g && g[p.id].tag == t.tag && UnfoldsAll(g, g[p.id].kids, t.kids)
  {
    if t.Tree? && p.Ref? && p.id in g && UnfoldsAll(g, g[p.id].kids, t.kids) {
      forall i | 0 <= i < |t.kids|
        ensures g[p.id].kids[i].kind == t.kids[i].kind && Unfolds(g, g[p.id].kids[i].at, t.kids[i].at)
      {
        assert UnfoldsAt(g, g[p.id].kids[i], t.kids[i]);
      }
    }
  }

  ghost predicate SubGraph(g: Nodes, g': Nodes)
  {
    forall x :: x in g ==> x in g' && g'[x] == g[x]
  }

  lemma {:induction false} UnfoldsUnique(g: Nodes, p: Ptr, t: Tree, u: Tree)
    requires Unfolds(g, p, t) && Unfolds(g, p, u)
    ensures t == u
    decreases t
  {
    if t.Tree? {
      forall i | 0 <= i < |t.kids| ensures t.kids[i] == u.kids[i] {
        UnfoldsUnique(g, g[p.id].kids[i].at, t.kids[i].at, u.kids[i].at);
      }
    }
  }

  lemma {:induction false} UnfoldsGrows(g: Nodes, g': Nodes, p: Ptr, t: Tree)
    requires Unfolds(g, p, t) && SubGraph(g, g')
    ensures Unfolds(g', p, t)
    decreases t
  {
    if t.Tree? {
      forall i | 0 <= i < |t.kids| ensures Unfolds(g', g'[p.id].kids[i].at, t.kids[i].at) {
        UnfoldsGrows(g, g', g[p.id].kids[i].at, t.kids[i].at);
      }
    }
  }

  lemma UnfoldsAllGrows(g: Nodes, g': Nodes, ks: seq<Slot<Ptr>>, ts: seq<Slot<Tree>>)
    requires UnfoldsAll(g, ks, ts) && SubGraph(g, g')
    ensures UnfoldsAll(g', ks, ts)
  {
    forall i | 0 <= i < |ts| ensures UnfoldsAt(g', ks[i], ts[i]) {
      assert UnfoldsAt(g, ks[i], ts[i]);
      UnfoldsGrows(g, g', ks[i].at, ts[i].at);
    }
  }

  lemma UnfoldsOne(g: Nodes, s: Slot<Ptr>, u: Slot<Tree>)
    requires UnfoldsAt(g, s, u)
    ensures UnfoldsAll(g, [s], [u])
  {}

  lemma UnfoldsAppend(g: Nodes, ks: seq<Slot<Ptr>>, ts: seq<Slot<Tree>>, ls: seq<Slot<Ptr>>, us: seq<Slot<Tree>>)
    requires UnfoldsAll(g, ks, ts) && UnfoldsAll(g, ls, us)
    ensures UnfoldsAll(g, ks + ls, ts + us)
  {
    forall i | 0 <= i < |ts + us| ensures UnfoldsAt(g, (ks + ls)[i], (ts + us)[i]) {
      if i < |ts| { assert UnfoldsAt(g, ks[i], ts[i]); } else { assert UnfoldsAt(g, ls[i - |ts|], us[i - |ts|]); }
    }
  }

  function Max(a: nat, b: nat): nat
  {
    if a < b then b else a
  }

  /** How many nodes there are on the longest way down a tree; a proper subtree is strictly lower. */
  ghost function Height(t: Tree): (n: nat)
  {
    if t.Nil? then 0 else 1 + HeightAll(t.kids)
  }

  ghost function HeightAll(ts: seq<Slot<Tree>>): nat
  {
    if ts == [] then 0
    else
      assert ts[0].at < ts[0];
      Max(Height(ts[0].at), HeightAll(ts[1..]))
  }

  lemma {:induction false} HeightOfKid(ts: seq<Slot<Tree>>, i: nat)
    requires i < |ts|
    ensures Height(ts[i].at) <= HeightAll(ts)
  {
    if i > 0 {
      assert ts[1..][i - 1] == ts[i];
      HeightOfKid(ts[1..], i - 1);
    }
  }

  /** The entries of `ps` at the positions listed in `sel`; a position that does not exist stands for `none`. */
  function Pick<T>(ps: seq<T>, sel: seq<nat>, none: T): (r: seq<T>)
    ensures |r| == |sel|
  {
    seq(|sel|, i requires 0 <= i < |sel| => if sel[i] < |ps| then ps[sel[i]] else none)
  }

  function Iota(n: nat): (r: seq<nat>)
    ensures |r| == n && forall i :: 0 <= i < n ==> r[i] == i
  {
    seq(n, i requires 0 <= i < n => i)
  }

  lemma PickIota<T>(ps: seq<T>, none: T)
    ensures Pick(ps, Iota(|ps|), none) == ps
  {
  }

  const NULL: Slot<Ptr> := Slot(One, Null)
  const NIL: Slot<Tree> := Slot(One, Nil)

  lemma UnfoldsPick(g: Nodes, ks: seq<Slot<Ptr>>, ts: seq<Slot<Tree>>, sel: seq<nat>)
    requires UnfoldsAll(g, ks, ts)
    ensures UnfoldsAll(g, Pick(ks, sel, NULL), Pick(ts, sel, NIL))
  {
    forall i | 0 <= i < |sel| ensures UnfoldsAt(g, Pick(ks, sel, NULL)[i], Pick(ts, sel, NIL)[i]) {
      if sel[i] < |ks| { assert UnfoldsAt(g, ks[sel[i]], ts[sel[i]]); }
    }
  }

  /** The same contents as elements of one vector, or as fields. */
  function Rekind<T>(ks: seq<Slot<T>>, k: Kind): (r: seq<Slot<T>>)
    ensures |r| == |ks| && forall i :: 0 <= i < |ks| ==> r[i] == Slot(k, ks[i].at)
  {
    seq(|ks|, i requires 0 <= i < |ks| => Slot(k, ks[i].at))
  }
}
