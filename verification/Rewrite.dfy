/**
 What a `Modifier` or `Transform` computes, as a function on the visitor's state, and what it is
 meant to compute: the plain recursive rewrite of the tree the IR unfolds to.

 A node has a mutable life, while it is a clone that its visitor is still changing, and an
 immutable one, once it is reachable through a `const` pointer.  `State.nodes` holds the immutable
 ones; a clone enters it when its visit is over.
 */
module Rewrite {
  import opened IRGraph

  /** What a preorder call does with the clone.  `sel` lists which of its pointers it keeps, and in
      which order (a position past the end is a field set to null); `anew` says that it returned a
      newly allocated node instead of the clone. */
  datatype PreAction = Remove | Go(tag: Tag, sel: seq<nat>, anew: bool, prune: bool)

  /** A tree built from the children of a node: an old child (one past the end is null), or a new node. */
  datatype Template = Old(i: nat) | New(tag: Tag, fields: seq<Slot<Template>>)

  /** What a postorder call does: return null, return one of the clone's children, or give the clone
      new children (`anew`: return a newly allocated node with such children instead). */
  datatype PostAction = Drop | Take(i: nat) | Build(tag: Tag, fields: seq<Slot<Template>>, anew: bool)

  /** A visitor: its callbacks and its two flags.  Both callbacks see the original node and the clone,
      preorder's with forwarded children; both may follow pointers. */
  datatype Visitor = Visitor(
    pre: (Nodes, Node, Node) -> PreAction, post: (Nodes, Node, Node) -> PostAction,
    visitDagOnce: bool, forwardChildren: bool)
  {
    predicate Forwards() { visitDagOnce && forwardChildren }
  }

  /** Callbacks read on trees: what the original unfolds to, and what the clone does. */
  datatype Meaning = Meaning(pre: (Tree, Tree) -> PreAction, post: (Tree, Tree) -> PostAction)

  /** The callbacks are deterministic: what they do depends on the unfolding of what they see, not
      on which nodes are shared or when they were allocated. */
  ghost predicate Implements(v: Visitor, m: Meaning)
  {
    forall g: Nodes, n: Node, c: Node, ts: seq<Slot<Tree>>, us: seq<Slot<Tree>> ::
      UnfoldsAll(g, n.kids, ts) && UnfoldsAll(g, c.kids, us) ==>
        && v.pre(g, n, c) == m.pre(Tree(n.tag, ts), Tree(c.tag, us))
        && v.post(g, n, c) == m.post(Tree(n.tag, ts), Tree(c.tag, us))
  }

  /** The tree that a template stands for over the trees of the old children. */
  function Grow(f: Template, ks: seq<Slot<Tree>>): Tree
    decreases f
  {
    match f
    case Old(i) => if i < |ks| then ks[i].at else Nil
    case New(tag, fs) => Tree(tag, GrowAll(fs, ks))
  }

  function GrowAll(fs: seq<Slot<Template>>, ks: seq<Slot<Tree>>): (us: seq<Slot<Tree>>)
    ensures |us| == |fs|
    decreases fs
  {
    if fs == [] then []
    else
      assert fs[0].at < fs[0];
      [Slot(fs[0].kind, Grow(fs[0].at, ks))] + GrowAll(fs[1..], ks)
  }

  /** All children as they are. */
  function Olds<T>(ks: seq<Slot<T>>): (fs: seq<Slot<Template>>)
    ensures |fs| == |ks| && forall i :: 0 <= i < |ks| ==> fs[i] == Slot(ks[i].kind, Old(i))
  {
    seq(|ks|, i requires 0 <= i < |ks| => Slot(ks[i].kind, Old(i)))
  }

  lemma {:induction false} GrowAt(fs: seq<Slot<Template>>, ks: seq<Slot<Tree>>, i: nat)
    requires i < |fs|
    ensures GrowAll(fs, ks)[i] == Slot(fs[i].kind, Grow(fs[i].at, ks))
  {
    if i > 0 { GrowAt(fs[1..], ks, i - 1); }
  }

  lemma GrowOlds(ks: seq<Slot<Tree>>)
    ensures GrowAll(Olds(ks), ks) == ks
  {
    forall i | 0 <= i < |ks| ensures GrowAll(Olds(ks), ks)[i] == ks[i] { GrowAt(Olds(ks), ks, i); }
  }

  // ---------- what stands in the place of a child ----------

  /** `v.visit` of a field, or what `Vector::visit_children` does with an element, when `r` is returned
      for `s`: it is kept, erased, overwritten, or spliced. */
  function Piece(g: Nodes, s: Slot<Ptr>, r: Ptr): seq<Slot<Ptr>>
  {
    if s.kind.One? || r == s.at then [Slot(s.kind, r)]
    else if r.Null? then []
    else if r.id in g && g[r.id].tag.vector then Rekind(g[r.id].kids, s.kind)
    else [Slot(s.kind, r)]
  }

  /** The same on trees. */
  function TreePiece(s: Slot<Tree>, r: Tree): seq<Slot<Tree>>
  {
    if s.kind.One? || r == s.at then [Slot(s.kind, r)]
    else if r.Nil? then []
    else if r.tag.vector then Rekind(r.kids, s.kind)
    else [Slot(s.kind, r)]
  }

  /** A child of a clone: what preorder sees of it, and what a visit returns for it. */
  datatype Part = Part(now: Tree, result: Tree)

  const NONE: Slot<Part> := Slot(One, Part(Nil, Nil))

  function Now(q: Slot<Part>): Slot<Tree>
  {
    Slot(q.kind, q.at.now)
  }

  function Nows(ps: seq<Slot<Part>>): (ts: seq<Slot<Tree>>)
    ensures |ts| == |ps| && forall i :: 0 <= i < |ps| ==> ts[i] == Now(ps[i])
  {
    seq(|ps|, i requires 0 <= i < |ps| => Now(ps[i]))
  }

  /** The children when all of them have been visited. */
  function Settle(ps: seq<Slot<Part>>): seq<Slot<Tree>>
  {
    if ps == [] then [] else TreePiece(Now(ps[0]), ps[0].at.result) + Settle(ps[1..])
  }

  /** Children that a visit leaves as they are. */
  function Same(ks: seq<Slot<Tree>>): (ps: seq<Slot<Part>>)
    ensures |ps| == |ks| && forall i :: 0 <= i < |ks| ==> ps[i] == Slot(ks[i].kind, Part(ks[i].at, ks[i].at))
  {
    seq(|ks|, i requires 0 <= i < |ks| => Slot(ks[i].kind, Part(ks[i].at, ks[i].at)))
  }

  lemma {:induction false} SettleSame(ks: seq<Slot<Tree>>)
    ensures Nows(Same(ks)) == ks && Settle(Same(ks)) == ks
  {
    if ks != [] {
      assert Same(ks)[1..] == Same(ks[1..]);
      SettleSame(ks[1..]);
    }
  }

  // ---------- the plain rewrite ----------

  /** The plain recursive rewrite of a tree. */
  ghost function RewriteTree(m: Meaning, t: Tree): Tree
    decreases t, 1
  {
    if t.Nil? then Nil else Outcome(m, t, Plain(m, t))
  }

  /** The children of `t`, none of them visited before. */
  ghost function Plain(m: Meaning, t: Tree): (ps: seq<Slot<Part>>)
    requires t.Tree?
    ensures |ps| == |t.kids|
    ensures forall i :: 0 <= i < |ps| ==> ps[i] == Original(m, t.kids[i])
    decreases t, 0
  {
    seq(|t.kids|, i requires 0 <= i < |t.kids| => Original(m, t.kids[i]))
  }

  ghost function Original(m: Meaning, s: Slot<Tree>): Slot<Part>
    decreases s.at, 2
  {
    Slot(s.kind, Part(s.at, RewriteTree(m, s.at)))
  }

  /** What becomes of `t` if preorder finds the children `seen` in the clone. */
  function Outcome(m: Meaning, t: Tree, seen: seq<Slot<Part>>): Tree
    requires t.Tree?
  {
    match m.pre(t, Tree(t.tag, Nows(seen)))
    case Remove => Nil
    case Go(l, sel, _, prune) =>
      if prune then Tree(l, Nows(Pick(seen, sel, NONE))) else Finished(m, t, l, Settle(Pick(seen, sel, NONE)))
  }

  function Finished(m: Meaning, t: Tree, l: Tag, ks: seq<Slot<Tree>>): Tree
  {
    match m.post(t, Tree(l, ks))
    case Drop => Nil
    case Take(i) => if i < |ks| then ks[i].at else Nil
    case Build(l', fs, _) => Tree(l', GrowAll(fs, ks))
  }

  /** The callbacks change nothing at the root of `t`, if its children are as they were. */
  ghost predicate Kept(m: Meaning, t: Tree)
    requires t.Tree?
  {
    && m.pre(t, t).Go? && m.pre(t, t).tag == t.tag && m.pre(t, t).sel == Iota(|t.kids|) && !m.pre(t, t).anew
    && (m.pre(t, t).prune || m.post(t, t) == Build(t.tag, Olds(t.kids), false))
  }

  /** The callbacks change nothing anywhere in `t`, or nothing that a visit comes to: where nothing is
      forwarded, what is below a pruned node does not matter. */
  ghost predicate Untouched(v: Visitor, m: Meaning, t: Tree)
    decreases t
  {
    t.Tree? ==>
      && Kept(m, t)
      && ((m.pre(t, t).prune && !v.Forwards()) || forall i :: 0 <= i < |t.kids| ==> Untouched(v, m, t.kids[i].at))
  }

  lemma KeptIsSame(m: Meaning, t: Tree)
    requires t.Tree? && Kept(m, t)
    ensures Outcome(m, t, Same(t.kids)) == t
  {
    SettleSame(t.kids);
    PickIota(Same(t.kids), NONE);
    GrowOlds(t.kids);
    assert Tree(t.tag, t.kids) == t;
  }

  lemma {:induction false} UntouchedIsFixed(v: Visitor, m: Meaning, t: Tree)
    requires Untouched(v, m, t)
    ensures RewriteTree(m, t) == t
    decreases t
  {
    if t.Tree? {
      assert Nows(Plain(m, t)) == t.kids && Tree(t.tag, t.kids) == t;
      if m.pre(t, t).prune {
        PickIota(Plain(m, t), NONE);
      } else {
        forall i | 0 <= i < |t.kids| ensures Plain(m, t)[i] == Same(t.kids)[i] {
          UntouchedIsFixed(v, m, t.kids[i].at);
        }
        assert Plain(m, t) == Same(t.kids);
        KeptIsSame(m, t);
      }
    }
  }

  // ---------- when it does not matter what has been visited before ----------

  /** The children of a clone, where those marked in `done` have been visited before the node and are
      forwarded: their results are there, spliced where need be, and are visited again. */
  ghost function Mix(m: Meaning, ks: seq<Slot<Tree>>, done: seq<bool>): seq<Slot<Part>>
    requires |done| == |ks|
  {
    if ks == [] then []
    else
      (if done[0] then Same(TreePiece(ks[0], RewriteTree(m, ks[0].at))) else [Original(m, ks[0])])
      + Mix(m, ks[1..], done[1..])
  }

  /** Whichever children of `t` have been visited before its clone is made, the outcome is the same. */
  ghost predicate StableAt(m: Meaning, t: Tree)
  {
    t.Tree? ==>
      forall done: seq<bool> {:trigger Mix(m, t.kids, done)} ::
        |done| == |t.kids| ==> Outcome(m, t, Mix(m, t.kids, done)) == RewriteTree(m, t)
  }

  /** If a vector is returned for `t`, visiting its elements again does nothing: those that are new nodes
      are kept by the callbacks, and so are the new nodes in them. */
  ghost predicate LastingFor(v: Visitor, m: Meaning, t: Tree, seen: seq<Slot<Part>>)
    requires t.Tree?
  {
    match m.pre(t, Tree(t.tag, Nows(seen)))
    case Remove => true
    case Go(l, sel, _, prune) =>
      if prune then l.vector ==> sel == []
      else
        var ks := Settle(Pick(seen, sel, NONE));
        LastingPost(v, m, m.post(t, Tree(l, ks)), ks)
  }

  ghost predicate LastingPost(v: Visitor, m: Meaning, act: PostAction, ks: seq<Slot<Tree>>)
  {
    match act
    case Drop => true
    case Take(i) => i < |ks| ==> !IsVector(ks[i].at)
    case Build(l, fs, _) => l.vector ==> LastingAll(v, m, fs, ks)
  }

  ghost predicate LastingTemplate(v: Visitor, m: Meaning, f: Template, ks: seq<Slot<Tree>>)
    decreases f, 1
  {
    match f
    case Old(_) => true
    case New(_, fs) => (v.Forwards() ==> Kept(m, Grow(f, ks))) && LastingAll(v, m, fs, ks)
  }

  ghost predicate LastingAll(v: Visitor, m: Meaning, fs: seq<Slot<Template>>, ks: seq<Slot<Tree>>)
    decreases fs, 0
  {
    if fs == [] then true
    else
      assert fs[0].at < fs[0];
      LastingTemplate(v, m, fs[0].at, ks) && LastingAll(v, m, fs[1..], ks)
  }

  /** Which children can have been forwarded. */
  ghost predicate Possible(v: Visitor, ks: seq<Slot<Tree>>, done: seq<bool>)
  {
    |done| == |ks| && (v.Forwards() || forall i :: 0 <= i < |done| ==> !done[i])
  }

  ghost predicate Lasting(v: Visitor, m: Meaning, t: Tree)
  {
    t.Tree? ==>
      forall done: seq<bool> {:trigger Mix(m, t.kids, done)} ::
        Possible(v, t.kids, done) ==> LastingFor(v, m, t, Mix(m, t.kids, done))
  }

  /** An element that is a vector itself is left alone or changes its tree; and what is spliced into its
      place can be visited again. */
  ghost predicate ElementSound(v: Visitor, m: Meaning, s: Slot<Tree>)
  {
    s.kind.Elem? ==>
      && (IsVector(s.at) ==> Untouched(v, m, s.at) || RewriteTree(m, s.at) != s.at)
      && (v.visitDagOnce && IsVector(RewriteTree(m, s.at)) && RewriteTree(m, s.at) != s.at ==> Lasting(v, m, s.at))
  }

  /** The callbacks can be visited in any order: it does not matter what is visited before what. */
  ghost predicate SoundBelow(v: Visitor, m: Meaning, t: Tree)
    decreases t
  {
    t.Tree? ==>
      && (v.Forwards() ==> StableAt(m, t))
      && forall i :: 0 <= i < |t.kids| ==> ElementSound(v, m, t.kids[i]) && SoundBelow(v, m, t.kids[i].at)
  }

  // ---------- the tracker ----------

  datatype VisitInfo = VisitInfo(inProgress: bool, result: Ptr)

  /** `bug` records that "IR loop detected" was raised, or that the stack overflowed. */
  datatype State = State(nodes: Nodes, next: Id, visited: map<Id, VisitInfo>, bug: bool)

  predicate Done(visited: map<Id, VisitInfo>, x: Id)
  {
    x in visited && !visited[x].inProgress
  }

  function Result(visited: map<Id, VisitInfo>, x: Id): Ptr
  {
    if x in visited then visited[x].result else Ref(x)
  }

  function Started(visited: map<Id, VisitInfo>, x: Id): map<Id, VisitInfo>
  {
    if x in visited then visited else visited[x := VisitInfo(true, Ref(x))]
  }

  /** `finish` takes `final` for a change of `orig` when the two nodes differ in some field. */
  predicate Differs(nodes: Nodes, orig: Id, final: Ptr)
  {
    final.Null? || (final.id != orig && !(final.id in nodes && orig in nodes && nodes[final.id] == nodes[orig]))
  }

  function Finish(nodes: Nodes, visited: map<Id, VisitInfo>, orig: Id, final: Ptr): map<Id, VisitInfo>
    requires orig in visited
  {
    if !Differs(nodes, orig, final) then visited[orig := VisitInfo(false, visited[orig].result)]
    else
      var v := visited[orig := VisitInfo(false, final)];
      if final.Null? || final.id in v then v else v[final.id := VisitInfo(false, final)]
  }

  /** What `ForwardChildren` returns for a child: its result if it is done. */
  function Known(visited: map<Id, VisitInfo>, p: Ptr): Ptr
  {
    if p.Ref? && Done(visited, p.id) then Result(visited, p.id) else p
  }

  /** `ForwardChildren`, visiting the children of a clone. */
  function Forward(g: Nodes, visited: map<Id, VisitInfo>, ks: seq<Slot<Ptr>>): seq<Slot<Ptr>>
  {
    if ks == [] then [] else Piece(g, ks[0], Known(visited, ks[0].at)) + Forward(g, visited, ks[1..])
  }

  // ---------- the traversal ----------

  /** A node on the visitor's stack: the id the clone has, the node that stands for the visited one
      while its children are visited (`preorder_result`), and the clone itself. */
  datatype Frame = Frame(clone: Id, standIn: Id, copy: Node)

  /** The clone of `x` as preorder gets it. */
  function Cloned(v: Visitor, st: State, x: Id): Node
    requires x in st.nodes
  {
    var n := st.nodes[x];
    if v.Forwards() then Node(n.tag, Forward(st.nodes, Started(st.visited, x), n.kids)) else n
  }

  /** What preorder answers at `x`. */
  function Asked(v: Visitor, st: State, x: Id): PreAction
    requires x in st.nodes
  {
    v.pre(st.nodes, st.nodes[x], Cloned(v, st, x))
  }

  /** Start the visit of `x`, clone it, forward its children and apply the outcome `go` of preorder. */
  function Open(v: Visitor, st: State, x: Id, go: PreAction): (State, Frame)
    requires x in st.nodes && go.Go?
  {
    var visited := Started(st.visited, x);
    var copy := Node(go.tag, Pick(Cloned(v, st, x).kids, go.sel, NULL));
    var c := st.next;
    if go.anew then
      (State(st.nodes[c + 1 := copy], c + 3, Started(visited, c + 1), st.bug), Frame(c + 2, c + 1, copy))
    else
      (State(st.nodes, c + 1, visited, st.bug), Frame(c, c, copy))
  }

  /** The clone becomes an ordinary node. */
  function Commit(st: State, f: Frame, n: Node): State
  {
    st.(nodes := st.nodes[f.clone := n])
  }

  datatype Planted<T> = Planted(nodes: Nodes, next: Id, value: T)

  /** Allocate the new nodes of a template over the children `ks`. */
  function Plant(nodes: Nodes, next: Id, f: Template, ks: seq<Slot<Ptr>>): (r: Planted<Ptr>)
    ensures next <= r.next
    decreases f
  {
    match f
    case Old(i) => Planted(nodes, next, if i < |ks| then ks[i].at else Null)
    case New(tag, fs) =>
      var r := PlantAll(nodes, next, fs, ks);
      Planted(r.nodes[r.next := Node(tag, r.value)], r.next + 1, Ref(r.next))
  }

  function PlantAll(nodes: Nodes, next: Id, fs: seq<Slot<Template>>, ks: seq<Slot<Ptr>>): (r: Planted<seq<Slot<Ptr>>>)
    ensures next <= r.next && |r.value| == |fs|
    decreases fs
  {
    if fs == [] then Planted(nodes, next, [])
    else
      assert fs[0].at < fs[0];
      var first := Plant(nodes, next, fs[0].at, ks);
      var rest := PlantAll(first.nodes, first.next, fs[1..], ks);
      Planted(rest.nodes, rest.next, [Slot(fs[0].kind, first.value)] + rest.value)
  }

  /** Apply the outcome of postorder to the clone: the state and the node it returned. */
  function Postordered(st: State, f: Frame, act: PostAction): (State, Ptr)
  {
    match act
    case Drop => (Commit(st, f, f.copy), Null)
    case Take(i) => (Commit(st, f, f.copy), if i < |f.copy.kids| then f.copy.kids[i].at else Null)
    case Build(l, fs, anew) =>
      var r := PlantAll(st.nodes, st.next, fs, f.copy.kids);
      var st1 := st.(nodes := r.nodes, next := r.next);
      var made := Node(l, r.value);
      if anew then
        var st2 := Commit(st1, f, f.copy);
        (st2.(nodes := st2.nodes[st2.next := made], next := st2.next + 1), Ref(st2.next))
      else (Commit(st1, f, made), Ref(f.clone))
  }

  /** A result that equals the stand-in is replaced by it. */
  function Settled(nodes: Nodes, standIn: Id, final: Ptr): Ptr
  {
    if Differs(nodes, standIn, final) then final else Ref(standIn)
  }

  /** Finish the visit of `x` with the outcome `final`. */
  function Close(st: State, x: Id, f: Frame, final: Ptr): (State, Ptr)
    requires x in st.visited && (f.standIn != f.clone ==> f.standIn in st.visited)
  {
    var settled := Settled(st.nodes, f.standIn, final);
    var visited := Finish(st.nodes, st.visited, x, settled);
    var visited' := if f.standIn != f.clone then Finish(st.nodes, visited, f.standIn, settled) else visited;
    (st.(visited := visited'), if Differs(st.nodes, x, settled) then settled else Ref(x))
  }

  /** `apply_visitor`; `d` is what is left of the depth that the stack of visited nodes may have. */
  function Visit(v: Visitor, st: State, n: Ptr, d: nat): (r: (State, Ptr))
    ensures st.visited.Keys <= r.0.visited.Keys
    decreases d, 0
  {
    if n.Null? || n.id !in st.nodes then (st, n)
    else if d == 0 then (st.(bug := true), n)
    else if v.visitDagOnce && Done(st.visited, n.id) then (st, Result(st.visited, n.id))
    else if n.id in st.visited && st.visited[n.id].inProgress then (st.(bug := true), n)
    else if Asked(v, st, n.id).Remove? then
      (st.(visited := Finish(st.nodes, Started(st.visited, n.id), n.id, Null), next := st.next + 1), Null)
    else
      var (st3, f, final) := Visited(v, st, n.id, d);
      Close(st3, n.id, f, final)
  }

  /** The state, the clone and the result when the visit of `x` is about to end. */
  function Visited(v: Visitor, st: State, x: Id, d: nat): (r: (State, Frame, Ptr))
    requires x in st.nodes && Asked(v, st, x).Go? && d > 0
    ensures st.visited.Keys <= r.0.visited.Keys && x in r.0.visited
    ensures r.1.standIn != r.1.clone ==> r.1.standIn in r.0.visited
    decreases d - 1, 3
  {
    var go := Asked(v, st, x);
    if go.prune then
      var (st1, f) := Open(v, st, x, go);
      (Commit(st1, f, f.copy), f, Ref(f.standIn))
    else
      var (st2, f) := Revisited(v, st, x, go, d);
      var (st3, final) := Postordered(st2, f, v.post(st2.nodes, st.nodes[x], f.copy));
      (st3, f, final)
  }

  /** The clone with its children visited. */
  function Revisited(v: Visitor, st: State, x: Id, go: PreAction, d: nat): (r: (State, Frame))
    requires x in st.nodes && go.Go? && d > 0
    ensures st.visited.Keys <= r.0.visited.Keys && x in r.0.visited
    ensures r.1.standIn != r.1.clone ==> r.1.standIn in r.0.visited
    decreases d - 1, 2
  {
    var (st1, f) := Open(v, st, x, go);
    var (st2, kids) := VisitAll(v, st1, f.copy.kids, d - 1);
    (st2, f.(copy := Node(go.tag, kids)))
  }

  /** `visit_children`: in the place of each child stands what its visit returned. */
  function VisitAll(v: Visitor, st: State, ks: seq<Slot<Ptr>>, d: nat): (r: (State, seq<Slot<Ptr>>))
    ensures st.visited.Keys <= r.0.visited.Keys
    decreases d, 1, |ks|
  {
    if ks == [] then (st, [])
    else
      var (st1, r) := Visit(v, st, ks[0].at, d);
      var (st2, rest) := VisitAll(v, st1, ks[1..], d);
      (st2, Piece(st1.nodes, ks[0], r) + rest)
  }
}
