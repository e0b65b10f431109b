/**
 A run that is not the plain rewrite although its callbacks look at no child and prune nothing.
 Postorder replaces a node `S(n)`, n > 0, by a vector with a new node `S(n - 1)` in it.  Two vectors have
 one such node as their element: the first gets `S(n - 1)`; in the clone of the second, forwarding has
 put the same `S(n - 1)` already, and it is visited as any child is.
 */
module SpliceExample {
  import opened IRGraph
  import opened Rewrite
  import opened RewriteState
  import opened RewriteSteps
  import opened RewriteProof
  import opened RewriteKeeps
  import opened RewriteScene
  import opened RewriteAgain
  import opened RewriteReturned
  import opened RewriteHistory
  import opened RewriteWeights

  const TOP := Tag("top", false)
  const LIST := Tag("list", true)

  /** A class for every number. */
  function S(n: nat): Tag
  {
    Tag(seq(n, _ => 's'), false)
  }

  predicate Counts(tag: Tag)
  {
    !tag.vector && tag.name != [] && tag.name[0] == 's'
  }

  function Less<T>(tag: Tag, ks: seq<Slot<T>>): PostAction
  {
    if Counts(tag) then Build(LIST, [Slot(Elem(0), New(Tag(tag.name[1..], false), []))], true)
    else Build(tag, Olds(ks), false)
  }

  function V(): Visitor
  {
    Visitor(
      (g: Nodes, n: Node, c: Node) => Go(c.tag, Iota(|c.kids|), false, false),
      (g: Nodes, n: Node, c: Node) => Less(c.tag, c.kids),
      true, true)
  }

  function M(): Meaning
  {
    Meaning(
      (t: Tree, u: Tree) => if u.Nil? then Remove else Go(u.tag, Iota(|u.kids|), false, false),
      (t: Tree, u: Tree) => if u.Nil? then Drop else Less(u.tag, u.kids))
  }

  lemma InScope()
    ensures Implements(V(), M()) && LeavesAlone(M(), TOP) && LeavesAlone(M(), LIST)
  {
    forall g: Nodes, n: Node, c: Node, ts: seq<Slot<Tree>>, us: seq<Slot<Tree>> |
      UnfoldsAll(g, n.kids, ts) && UnfoldsAll(g, c.kids, us)
      ensures V().pre(g, n, c) == M().pre(Tree(n.tag, ts), Tree(c.tag, us))
      ensures V().post(g, n, c) == M().post(Tree(n.tag, ts), Tree(c.tag, us))
    {
      forall i | 0 <= i < |us| ensures Olds(c.kids)[i] == Olds(us)[i] { assert UnfoldsAt(g, c.kids[i], us[i]); }
      assert Olds(c.kids) == Olds(us);
    }
  }

  lemma LessThan(n: nat)
    requires n > 0
    ensures Counts(S(n)) && Tag(S(n).name[1..], false) == S(n - 1)
  {
    assert S(n).name[1..] == S(n - 1).name;
  }

  function Single(t: Tree): seq<Slot<Tree>>
  {
    [Slot(Elem(0), t)]
  }

  function Pair(a: Tree, b: Tree): Tree
  {
    Tree(TOP, [Slot(One, Tree(LIST, Single(a))), Slot(One, Tree(LIST, Single(b)))])
  }

  function Leaf(n: nat): Tree
  {
    Tree(S(n), [])
  }

  // ---------- the plain rewrite ----------

  lemma PlainLeaf(n: nat)
    requires n > 0
    ensures RewriteTree(M(), Leaf(n)) == Tree(LIST, Single(Leaf(n - 1)))
  {
    LessThan(n);
    assert Plain(M(), Leaf(n)) == [] && Nows([]) == [] && Pick(Plain(M(), Leaf(n)), Iota(0), NONE) == [];
    var f := Slot(Elem(0), New(S(n - 1), []));
    assert [f][1..] == [] && GrowAll([], []) == [];
    assert GrowAll([f], []) == Single(Leaf(n - 1));
  }

  lemma PlainList(n: nat)
    requires n > 0
    ensures RewriteTree(M(), Tree(LIST, Single(Leaf(n)))) == Tree(LIST, Single(Leaf(n - 1)))
  {
    InScope();
    PlainLeaf(n);
    var ts := Single(Leaf(n));
    AlonePlain(M(), LIST, ts);
    assert Originals(M(), ts)[1..] == [];
    assert Settle(Originals(M(), ts)) == Single(Leaf(n - 1)) + [];
  }

  lemma PlainPair(n: nat)
    requires n > 0
    ensures RewriteTree(M(), Pair(Leaf(n), Leaf(n))) == Pair(Leaf(n - 1), Leaf(n - 1))
  {
    InScope();
    PlainList(n);
    var ts := Pair(Leaf(n), Leaf(n)).kids;
    AlonePlain(M(), TOP, ts);
    SettleFields(M(), ts);
    assert Rewrites(M(), ts) == Pair(Leaf(n - 1), Leaf(n - 1)).kids;
  }

  // ---------- the run ----------

  function Element(x: Id): seq<Slot<Ptr>>
  {
    [Slot(Elem(0), Ref(x))]
  }

  /** The two vectors 1 and 2 hold the node 0. */
  function Graph(n: nat): Nodes
  {
    map[0 := Node(S(n), []), 1 := Node(LIST, Element(0)), 2 := Node(LIST, Element(0)),
        3 := Node(TOP, [Slot(One, Ref(1)), Slot(One, Ref(2))])]
  }

  /** The entries for a node that became another. */
  function Became(visited: map<Id, VisitInfo>, x: Id, y: Id): map<Id, VisitInfo>
  {
    visited[x := VisitInfo(false, Ref(y))][y := VisitInfo(false, Ref(y))]
  }

  ghost predicate Orderly(st: State)
  {
    Allocated(st.nodes, st.next) && forall y :: y in st.visited ==> y < st.next
  }

  /** The state after the visit of a node `S(n)`. */
  function Lessened(st: State, x: Id, n: nat): State
    requires n > 0
  {
    var c := st.next;
    State(st.nodes[c + 1 := Node(S(n - 1), [])][c := Node(S(n), [])][c + 2 := Node(LIST, Element(c + 1))], c + 3,
          Became(st.visited, x, c + 2), st.bug)
  }

  lemma VisitCount(st: State, x: Id, n: nat, d: nat)
    requires Orderly(st) && x in st.nodes && st.nodes[x] == Node(S(n), []) && n > 0 && x !in st.visited && d > 0
    ensures Visit(V(), st, Ref(x), d) == (Lessened(st, x, n), Ref(st.next + 2))
  {
    var c, go := st.next, Go(S(n), Iota(0), false, false);
    LessThan(n);
    assert Cloned(V(), st, x) == st.nodes[x] && Asked(V(), st, x) == go;
    assert Pick(st.nodes[x].kids, go.sel, NULL) == [];
    var f := Frame(c, c, Node(S(n), []));
    assert Open(V(), st, x, go) == (Begun(st, x), f);
    assert VisitAll(V(), Begun(st, x), [], d - 1) == (Begun(st, x), []);
    assert Revisited(V(), st, x, go, d) == (Begun(st, x), f);
    CountPosted(st, x, n, f);
    VisitSteps(V(), st, x, d);
    var st3 := Begun(st, x).(nodes := Lessened(st, x, n).nodes, next := c + 3);
    assert Visited(V(), st, x, d) == (st3, f, Ref(c + 2));
    CountClosed(st, x, n, f);
  }

  lemma CountClosed(st: State, x: Id, n: nat, f: Frame)
    requires Orderly(st) && x in st.nodes && st.nodes[x] == Node(S(n), []) && n > 0 && x !in st.visited
    requires f == Frame(st.next, st.next, Node(S(n), []))
    ensures Close(Begun(st, x).(nodes := Lessened(st, x, n).nodes, next := st.next + 3), x, f, Ref(st.next + 2))
         == (Lessened(st, x, n), Ref(st.next + 2))
  {
    var c, g := st.next, Lessened(st, x, n).nodes;
    assert g[c] == g[x] == Node(S(n), []) && g[c + 2].tag == LIST != S(n);
    assert Settled(g, c, Ref(c + 2)) == Ref(c + 2) && Differs(g, x, Ref(c + 2));
    var visited := Begun(st, x).visited;
    assert visited[x := VisitInfo(false, Ref(c + 2))] == st.visited[x := VisitInfo(false, Ref(c + 2))];
  }

  lemma CountPosted(st: State, x: Id, n: nat, f: Frame)
    requires Orderly(st) && n > 0 && f == Frame(st.next, st.next, Node(S(n), []))
    ensures Postordered(Begun(st, x), f, Less(S(n), f.copy.kids))
         == (Begun(st, x).(nodes := Lessened(st, x, n).nodes, next := st.next + 3), Ref(st.next + 2))
  {
    var c, t := st.next, Slot(Elem(0), New(S(n - 1), []));
    LessThan(n);
    assert [t][1..] == [];
    assert PlantAll(st.nodes, c + 1, [], []) == Planted(st.nodes, c + 1, []);
    assert Plant(st.nodes, c + 1, t.at, []) == Planted(st.nodes[c + 1 := Node(S(n - 1), [])], c + 2, Ref(c + 1));
    assert PlantAll(st.nodes, c + 1, [t], []).value == Element(c + 1);
  }

  /** A vector or the root, whose children became `rs` in `st2`. */
  lemma VisitAlone(
    st: State, x: Id, ts: seq<Slot<Tree>>, cs: seq<Slot<Tree>>, st2: State, rs: seq<Slot<Ptr>>, us: seq<Slot<Tree>>,
    d: nat)
    requires Orderly(st) && x in st.nodes && st.nodes[x].tag in {TOP, LIST} && x !in st.visited && d > 0
    requires ClonedAs(V(), st, x, ts, cs) && (st2, rs) == VisitAll(V(), Begun(st, x), Cloned(V(), st, x).kids, d - 1)
    requires UnfoldsAll(st2.nodes, rs, us) && rs != st.nodes[x].kids && SubGraph(st.nodes, st2.nodes)
    requires st.next !in st2.visited && st.next !in st2.nodes
    ensures Visit(V(), st, Ref(x), d) ==
      (State(st2.nodes[st.next := Node(st.nodes[x].tag, rs)], st2.next, Became(st2.visited, x, st.next), st2.bug),
       Ref(st.next))
  {
    InScope();
    var f := Frame(st.next, st.next, Node(st.nodes[x].tag, rs));
    AlonePosted(V(), M(), st, x, ts, cs, us, f, st2, d);
    VisitSteps(V(), st, x, d);
    assert Differs(st2.nodes[st.next := f.copy], x, Ref(st.next));
  }

  // ---------- step by step ----------

  lemma ElementUnfolds(g: Nodes, x: Id, n: nat)
    requires x in g && g[x] == Node(S(n), [])
    ensures Unfolds(g, Ref(x), Leaf(n)) && UnfoldsAll(g, Element(x), Single(Leaf(n)))
  {
    UnfoldsOne(g, Slot(Elem(0), Ref(x)), Slot(Elem(0), Leaf(n)));
  }

  /** The visit of the element of a vector, which splices the result. */
  lemma VisitElement(st: State, x: Id, n: nat, d: nat)
    requires Orderly(st) && x in st.nodes && st.nodes[x] == Node(S(n), []) && n > 0 && x !in st.visited && d > 0
    ensures VisitAll(V(), st, Element(x), d) == (Lessened(st, x, n), Element(st.next + 1))
  {
    VisitCount(st, x, n, d);
    var st1 := Lessened(st, x, n);
    assert Element(x)[1..] == [] && VisitAll(V(), st1, [], d) == (st1, []);
    assert Piece(st1.nodes, Slot(Elem(0), Ref(x)), Ref(st.next + 2)) == Element(st.next + 1);
    assert Element(st.next + 1) + [] == Element(st.next + 1);
  }

  /** The state after the visit of the vector `w`, whose clone held a node `x` of the class `S(n)`: the
      new vector is `st.next`, and its element is `st.next + 2`. */
  function VectorDone(st: State, w: Id, x: Id, n: nat): State
    requires n > 0
  {
    var st2 := Lessened(Begun(st, w), x, n);
    State(st2.nodes[st.next := Node(LIST, Element(st.next + 2))], st2.next, Became(st2.visited, w, st.next), st.bug)
  }

  /** What is in the vector `w` before it is visited, and what in its clone. */
  ghost predicate Holds(st: State, w: Id, x0: Id, n0: nat, x: Id, n: nat)
  {
    && Orderly(st) && w in st.nodes && st.nodes[w] == Node(LIST, Element(x0)) && w !in st.visited
    && x0 in st.nodes && st.nodes[x0] == Node(S(n0), []) && x0 < st.next
    && x in st.nodes && st.nodes[x] == Node(S(n), []) && x !in st.visited && x != w && n > 0
    && Cloned(V(), st, w).kids == Element(x)
  }

  lemma VisitVector(st: State, w: Id, x0: Id, n0: nat, x: Id, n: nat, d: nat)
    requires Holds(st, w, x0, n0, x, n) && d > 1
    ensures Visit(V(), st, Ref(w), d) == (VectorDone(st, w, x, n), Ref(st.next))
  {
    var st2 := Lessened(Begun(st, w), x, n);
    HeldVisited(st, w, x0, n0, x, n, d - 1);
    HeldUnfolds(st, w, x0, n0, x, n);
    VisitAlone(st, w, Single(Leaf(n0)), Single(Leaf(n)), st2, Element(st.next + 2), Single(Leaf(n - 1)), d);
  }

  lemma HeldVisited(st: State, w: Id, x0: Id, n0: nat, x: Id, n: nat, d: nat)
    requires Holds(st, w, x0, n0, x, n) && d > 0
    ensures VisitAll(V(), Begun(st, w), Cloned(V(), st, w).kids, d)
         == (Lessened(Begun(st, w), x, n), Element(st.next + 2))
  {
    VisitElement(Begun(st, w), x, n, d);
  }

  lemma HeldUnfolds(st: State, w: Id, x0: Id, n0: nat, x: Id, n: nat)
    requires Holds(st, w, x0, n0, x, n)
    ensures ClonedAs(V(), st, w, Single(Leaf(n0)), Single(Leaf(n)))
    ensures var st2 := Lessened(Begun(st, w), x, n);
      && UnfoldsAll(st2.nodes, Element(st.next + 2), Single(Leaf(n - 1))) && SubGraph(st.nodes, st2.nodes)
      && Element(st.next + 2) != Element(x0) && st.next !in st2.visited && st.next !in st2.nodes
  {
    ElementUnfolds(st.nodes, x0, n0);
    ElementUnfolds(st.nodes, x, n);
    ElementUnfolds(Lessened(Begun(st, w), x, n).nodes, st.next + 2, n - 1);
  }

  /** The root has been started. */
  function Start(n: nat): State
  {
    Begun(State(Graph(n), 4, map[], false), 3)
  }

  /** The first vector is 5 now; the new node `S(n - 1)` is 7. */
  function AfterFirst(n: nat): State
    requires n > 0
  {
    VectorDone(Start(n), 1, 0, n)
  }

  /** The second vector is 9 now; the new node `S(n - 2)` is 11. */
  function AfterSecond(n: nat): State
    requires n > 1
  {
    VectorDone(AfterFirst(n), 2, 7, n - 1)
  }

  lemma FirstHolds(n: nat)
    requires n > 0
    ensures Holds(Start(n), 1, 0, n, 0, n)
  {
    ForwardNothing(Graph(n), Started(Start(n).visited, 1), Element(0));
  }

  lemma SecondHolds(n: nat)
    requires n > 1
    ensures Holds(AfterFirst(n), 2, 0, n, 7, n - 1)
  {
    var st := AfterFirst(n);
    assert Element(0)[1..] == [];
    assert Known(Started(st.visited, 2), Ref(0)) == Ref(8) && st.nodes[8] == Node(LIST, Element(7));
    assert Forward(st.nodes, Started(st.visited, 2), Element(0)) == Element(7) + [];
  }

  function Roots(x: Id, y: Id): seq<Slot<Ptr>>
  {
    [Slot(One, Ref(x)), Slot(One, Ref(y))]
  }

  lemma BothVectors(n: nat, d: nat)
    requires n > 1 && d > 1
    ensures VisitAll(V(), Start(n), Roots(1, 2), d) == (AfterSecond(n), Roots(5, 9))
  {
    FirstHolds(n);
    VisitVector(Start(n), 1, 0, n, 0, n, d);
    SecondHolds(n);
    VisitVector(AfterFirst(n), 2, 0, n, 7, n - 1, d);
    VisitField(V(), Start(n), Ref(1), d);
    VisitField(V(), AfterFirst(n), Ref(2), d);
    VisitAllSplit(V(), Start(n), [Slot(One, Ref(1))], [Slot(One, Ref(2))], d);
    assert Roots(1, 2) == [Slot(One, Ref(1))] + [Slot(One, Ref(2))];
    assert Roots(5, 9) == [Slot(One, Ref(5))] + [Slot(One, Ref(9))];
  }

  /** `x` and `y` are vectors with one element each. */
  ghost predicate TwoVectors(g: Nodes, x: Id, y: Id, a: Id, b: Id, i: nat, j: nat)
  {
    && {x, y, a, b} <= g.Keys && g[x] == Node(LIST, Element(a)) && g[y] == Node(LIST, Element(b))
    && g[a] == Node(S(i), []) && g[b] == Node(S(j), [])
  }

  lemma RootsUnfold(g: Nodes, x: Id, y: Id, a: Id, b: Id, i: nat, j: nat)
    requires TwoVectors(g, x, y, a, b, i, j)
    ensures UnfoldsAll(g, Roots(x, y), Pair(Leaf(i), Leaf(j)).kids)
  {
    var s, t := Tree(LIST, Single(Leaf(i))), Tree(LIST, Single(Leaf(j)));
    ElementUnfolds(g, a, i);
    ElementUnfolds(g, b, j);
    UnfoldsNode(g, Ref(x), s);
    UnfoldsNode(g, Ref(y), t);
    UnfoldsOne(g, Slot(One, Ref(x)), Slot(One, s));
    UnfoldsOne(g, Slot(One, Ref(y)), Slot(One, t));
    UnfoldsAppend(g, [Slot(One, Ref(x))], [Slot(One, s)], [Slot(One, Ref(y))], [Slot(One, t)]);
    assert Roots(x, y) == [Slot(One, Ref(x))] + [Slot(One, Ref(y))];
    assert Pair(Leaf(i), Leaf(j)).kids == [Slot(One, s)] + [Slot(One, t)];
  }

  /** What is there after both vectors. */
  lemma Vectors(n: nat)
    requires n > 1
    ensures TwoVectors(AfterSecond(n).nodes, 5, 9, 7, 11, n - 1, n - 2)
    ensures 4 !in AfterSecond(n).nodes && 4 !in AfterSecond(n).visited
  {
    var g' := AfterSecond(n).nodes;
    assert g'[5] == Node(LIST, Element(7)) && g'[7] == Node(S(n - 1), []);
    assert g'[9] == Node(LIST, Element(11)) && g'[11] == Node(S(n - 2), []);
  }

  /** The end of the run, after both vectors. */
  lemma RootVisited(n: nat, st2: State, d: nat)
    requires n > 1 && d > 1 && VisitAll(V(), Start(n), Roots(1, 2), d - 1) == (st2, Roots(5, 9))
    requires TwoVectors(st2.nodes, 5, 9, 7, 11, n - 1, n - 2) && 4 !in st2.nodes && 4 !in st2.visited
    ensures Run(V(), Graph(n), 4, Ref(3), d).0.nodes == st2.nodes[4 := Node(TOP, Roots(5, 9))]
    ensures Run(V(), Graph(n), 4, Ref(3), d).0.bug == st2.bug
    ensures Run(V(), Graph(n), 4, Ref(3), d).1 == Ref(4)
  {
    var st0 := State(Graph(n), 4, map[], false);
    ForwardNothing(Graph(n), Started(map[], 3), Roots(1, 2));
    assert Cloned(V(), st0, 3).kids == Roots(1, 2);
    VisitAllAdds(V(), Start(n), Roots(1, 2), d - 1);
    RootsUnfold(Graph(n), 1, 2, 0, 0, n, n);
    RootsUnfold(st2.nodes, 5, 9, 7, 11, n - 1, n - 2);
    var ts, us := Pair(Leaf(n), Leaf(n)).kids, Pair(Leaf(n - 1), Leaf(n - 2)).kids;
    VisitAlone(st0, 3, ts, ts, st2, Roots(5, 9), us, d);
  }

  lemma RootUnfolds(g: Nodes, p: Id, x: Id, y: Id, a: Id, b: Id, i: nat, j: nat)
    requires TwoVectors(g, x, y, a, b, i, j) && p !in {x, y, a, b}
    ensures Unfolds(g[p := Node(TOP, Roots(x, y))], Ref(p), Pair(Leaf(i), Leaf(j)))
  {
    var g' := g[p := Node(TOP, Roots(x, y))];
    RootsUnfold(g', x, y, a, b, i, j);
    UnfoldsNode(g', Ref(p), Pair(Leaf(i), Leaf(j)));
  }

  /** The two vectors have one tree, and the outcome of no visit depends on what preorder finds; but they
      are rewritten to different trees. */
  lemma SecondVectorDiffers(n: nat, d: nat)
    requires n > 1 && d > 2
    ensures Unfolds(Graph(n), Ref(3), Pair(Leaf(n), Leaf(n)))
    ensures RewriteTree(M(), Pair(Leaf(n), Leaf(n))) == Pair(Leaf(n - 1), Leaf(n - 1))
    ensures Yields(V(), Graph(n), 4, Ref(3), d, Pair(Leaf(n - 1), Leaf(n - 2)))
    ensures forall t :: StableAt(M(), t)
  {
    PlainPair(n);
    RootUnfolds(Graph(n), 3, 1, 2, 0, 0, n, n);
    assert Graph(n) == Graph(n)[3 := Node(TOP, Roots(1, 2))];
    BothVectors(n, d - 1);
    Vectors(n);
    RootVisited(n, AfterSecond(n), d);
    RootUnfolds(AfterSecond(n).nodes, 4, 5, 9, 7, 11, n - 1, n - 2);
    forall t ensures StableAt(M(), t) {
      if t.Tree? { KeepingIsStable(M(), t, t.tag); }
    }
  }

  // ---------- what the visitor does shows ----------

  /** How often a node can be replaced. */
  function Steps(): Tag -> nat
  {
    (tag: Tag) => if Counts(tag) then |tag.name| else 0
  }

  function Lower(tag: Tag): Tree
    requires Counts(tag)
  {
    Tree(Tag(tag.name[1..], false), [])
  }

  /** Where the node counts, the children do not matter. */
  lemma CountOutcome(t: Tree, seen: seq<Slot<Part>>)
    requires t.Tree? && Counts(t.tag)
    ensures Outcome(M(), t, seen) == Tree(LIST, Single(Lower(t.tag)))
  {
    PickIota(seen, NONE);
    var f := Slot(Elem(0), New(Tag(t.tag.name[1..], false), []));
    var ks := Settle(seen);
    assert [f][1..] == [] && GrowAll([], ks) == [];
    assert GrowAll([f], ks) == Single(Lower(t.tag));
  }

  lemma OtherTree(t: Tree)
    requires t.Tree? && !Counts(t.tag)
    ensures RewriteTree(M(), t) == Tree(t.tag, Settle(Originals(M(), t.kids)))
  {
    var seen := Plain(M(), t);
    assert seen == Originals(M(), t.kids);
    PickIota(seen, NONE);
    GrowOlds(Settle(seen));
  }

  lemma CountLightens(t: Tree)
    requires t.Tree? && Counts(t.tag)
    ensures 0 < Weigh(Steps(), t) && Weigh(Steps(), RewriteTree(M(), t)) < Weigh(Steps(), t)
  {
    CountOutcome(t, Plain(M(), t));
    var one := Single(Lower(t.tag));
    assert one[1..] == [] && WeighAll(Steps(), one) == Weigh(Steps(), Lower(t.tag));
  }

  lemma {:induction false} ActsOnWeight(t: Tree)
    ensures Lightens(Steps(), M(), t) && (Weigh(Steps(), t) == 0 ==> Untouched(V(), M(), t))
    decreases t
  {
    if t.Tree? {
      forall i | 0 <= i < |t.kids| ensures Lightens(Steps(), M(), t.kids[i].at) { ActsOnWeight(t.kids[i].at); }
      SettleWeighs(Steps(), M(), t.kids);
      if Counts(t.tag) { CountLightens(t); } else { OtherTree(t); }
      if Weigh(Steps(), t) == 0 {
        forall i | 0 <= i < |t.kids| ensures Untouched(V(), M(), t.kids[i].at) {
          WeightlessKid(Steps(), t.kids, i);
          ActsOnWeight(t.kids[i].at);
        }
      }
    }
  }

  /** A second vector gets a smaller node, unless it is left alone. */
  lemma CountIsOvert(t: Tree, seen: seq<Slot<Part>>)
    requires t.Tree? && Counts(t.tag)
    ensures OvertFor(V(), M(), t, seen)
  {
    var low, f := Lower(t.tag), Slot(Elem(0), New(Tag(t.tag.name[1..], false), []));
    CountOutcome(t, seen);
    PickIota(seen, NONE);
    var ks := Settle(seen);
    assert GrowAll([], ks) == [] && [f][1..] == [] && Grow(f.at, ks) == low;
    assert BuiltAll(V(), M(), [f], ks);
    if Counts(low.tag) {
      CountOutcome(low, Same(low.kids));
      assert Marks(M(), [f], ks) == [true] && MarksFor(M(), t, seen) == [true];
      assert Elements(Outcome(M(), t, seen)) == Single(low) && Single(low)[1..] == [] && [true][1..] == [];
      assert Twice(M(), Single(low), [true]) == Replacement(M(), Elem(0), low) + [];
      assert Replacement(M(), Elem(0), low) == Single(Lower(low.tag));
    } else {
      assert Kept(M(), low) && LastingTemplate(V(), M(), f.at, ks);
    }
  }

  /** So the exact condition covers it. */
  lemma IsOvert()
    ensures Overt(V(), M())
  {
    forall t: Tree | IsVector(t) ensures Untouched(V(), M(), t) || RewriteTree(M(), t) != t { ActsOnWeight(t); }
    forall t: Tree, done: seq<bool> | t.Tree? && |done| == |t.kids|
      ensures OvertFor(V(), M(), t, Mix(M(), t.kids, done))
    {
      var seen := Mix(M(), t.kids, done);
      if Counts(t.tag) {
        CountIsOvert(t, seen);
      } else {
        var ks := Settle(Pick(seen, Iota(|seen|), NONE));
        OldsLast(V(), M(), Olds(ks), ks);
      }
    }
  }

  /** With forwarding some run is not the plain rewrite: the condition fails. */
  lemma NotEveryRunIsPlain(n: nat, d: nat)
    requires n > 1 && d > 2
    ensures !RunIsPlain(V(), M(), Graph(n), 4, Ref(3), Pair(Leaf(n), Leaf(n)), d)
    ensures !forall t: Tree :: Fit(V(), M(), t)
  {
    var u, plain := Pair(Leaf(n - 1), Leaf(n - 2)), Pair(Leaf(n - 1), Leaf(n - 1));
    SecondVectorDiffers(n, d);
    Differ(n);
    var (st, p) := Run(V(), Graph(n), 4, Ref(3), d);
    if Unfolds(st.nodes, p, plain) { UnfoldsUnique(st.nodes, p, u, plain); }
    assert Closed(Graph(n), 4);
    InScope();
    IsOvert();
    HistoryFreeIff(V(), M(), Classes(TOP, LIST));
  }

  lemma Differ(n: nat)
    requires n > 1
    ensures Pair(Leaf(n - 1), Leaf(n - 2)) != Pair(Leaf(n - 1), Leaf(n - 1))
  {
    assert |S(n - 1).name| != |S(n - 2).name|;
    assert Pair(Leaf(n - 1), Leaf(n - 2)).kids[1].at.kids[0].at == Leaf(n - 2);
    assert Pair(Leaf(n - 1), Leaf(n - 1)).kids[1].at.kids[0].at == Leaf(n - 1);
  }
}
