/** Graphs in which some children of a node are visited before the node, and runs on them. */
module RewriteScene {
  import opened IRGraph
  import opened Rewrite
  import opened RewriteState
  import opened RewriteIdle
  import opened RewriteSteps
  import opened RewriteProof
  import opened RewriteKeeps

  /** The visitor has nothing to do with the nodes of the class `w`. */
  ghost predicate LeavesAlone(m: Meaning, w: Tag)
  {
    forall t: Tree, u: Tree :: t.Tree? && u.Tree? && t.tag == w && u.tag == w ==>
      && m.pre(t, u) == Go(w, Iota(|u.kids|), false, false)
      && m.post(t, u) == Build(w, Olds(u.kids), false)
  }

  // ---------- embedding trees ----------

  lemma {:induction false} Embed(g: Nodes, next: Id, t: Tree) returns (g': Nodes, next': Id, p: Ptr)
    requires Closed(g, next)
    ensures Closed(g', next') && SubGraph(g, g') && next <= next' && Unfolds(g', p, t)
    ensures p.Ref? ==> next <= p.id < next'
    ensures forall x :: x in g' ==> x in g || x >= next
    decreases t, 1, 0
  {
    if t.Nil? {
      g', next', p := g, next, Null;
    } else {
      var h, n, ks := EmbedSome(g, next, t.kids, seq(|t.kids|, i => true));
      g', next', p := h[n := Node(t.tag, ks)], n + 1, Ref(n);
      assert SubGraph(h, g');
      UnfoldsAllGrows(h, g', ks, t.kids);
      UnfoldsNode(g', p, t);
    }
  }

  /** Nodes for the trees of `ts` that are to be kept, and null for the others. */
  lemma {:induction false} EmbedSome(g: Nodes, next: Id, ts: seq<Slot<Tree>>, keep: seq<bool>)
    returns (g': Nodes, next': Id, ks: seq<Slot<Ptr>>)
    requires Closed(g, next) && |keep| == |ts|
    ensures Closed(g', next') && SubGraph(g, g') && next <= next' && |ks| == |ts|
    ensures forall i :: 0 <= i < |ts| ==>
      ks[i].kind == ts[i].kind && if keep[i] then UnfoldsAt(g', ks[i], ts[i]) else ks[i].at == Null
    ensures forall i :: 0 <= i < |ts| && ks[i].at.Ref? ==> next <= ks[i].at.id < next'
    ensures forall x :: x in g' ==> x in g || x >= next
    decreases ts, 0, |ts|
  {
    if ts == [] {
      g', next', ks := g, next, [];
    } else {
      assert ts[0].at < ts[0];
      var h, n, p := g, next, Null;
      if keep[0] { h, n, p := Embed(g, next, ts[0].at); }
      var rest;
      g', next', rest := EmbedSome(h, n, ts[1..], keep[1..]);
      ks := [Slot(ts[0].kind, p)] + rest;
      if keep[0] { UnfoldsGrows(h, g', p, ts[0].at); }
    }
  }

  /** The entries that are to be kept, as fields. */
  function Chosen<T>(xs: seq<Slot<T>>, keep: seq<bool>): (r: seq<Slot<T>>)
    requires |keep| == |xs|
  {
    if xs == [] then [] else (if keep[0] then [Slot(One, xs[0].at)] else []) + Chosen(xs[1..], keep[1..])
  }

  /** Which entry the `j`-th chosen one is. */
  lemma {:induction false} ChosenFrom(ks: seq<Slot<Ptr>>, ts: seq<Slot<Tree>>, keep: seq<bool>, j: nat) returns (i: nat)
    requires |ks| == |ts| == |keep| && j < |Chosen(ks, keep)|
    ensures i < |ks| && keep[i] && Chosen(ks, keep)[j] == Slot(One, ks[i].at)
    ensures j < |Chosen(ts, keep)| && Chosen(ts, keep)[j] == Slot(One, ts[i].at)
  {
    if keep[0] && j == 0 {
      i := 0;
    } else {
      i := ChosenFrom(ks[1..], ts[1..], keep[1..], if keep[0] then j - 1 else j);
      i := i + 1;
    }
  }

  /** Where an entry is among the chosen ones. */
  lemma {:induction false} ChosenAt(ks: seq<Slot<Ptr>>, keep: seq<bool>, i: nat) returns (j: nat)
    requires |ks| == |keep| && i < |ks| && keep[i]
    ensures j < |Chosen(ks, keep)| && Chosen(ks, keep)[j].at == ks[i].at
  {
    if i == 0 {
      j := 0;
    } else {
      j := ChosenAt(ks[1..], keep[1..], i - 1);
      if keep[0] { j := j + 1; }
    }
  }

  lemma {:induction false} ChosenMany(ks: seq<Slot<Ptr>>, ts: seq<Slot<Tree>>, keep: seq<bool>)
    requires |ks| == |ts| == |keep|
    ensures |Chosen(ks, keep)| == |Chosen(ts, keep)|
  {
    if ks != [] { ChosenMany(ks[1..], ts[1..], keep[1..]); }
  }

  lemma ChosenUnfold(g: Nodes, ks: seq<Slot<Ptr>>, ts: seq<Slot<Tree>>, keep: seq<bool>)
    requires |keep| == |ks| && UnfoldsAll(g, ks, ts)
    ensures UnfoldsAll(g, Chosen(ks, keep), Chosen(ts, keep))
  {
    ChosenMany(ks, ts, keep);
    forall j | 0 <= j < |Chosen(ks, keep)| ensures UnfoldsAt(g, Chosen(ks, keep)[j], Chosen(ts, keep)[j]) {
      var i := ChosenFrom(ks, ts, keep, j);
      assert UnfoldsAt(g, ks[i], ts[i]);
    }
  }

  // ---------- lists of fields ----------

  ghost predicate Fields<T>(ks: seq<Slot<T>>)
  {
    forall i :: 0 <= i < |ks| ==> ks[i].kind == One
  }

  ghost function Originals(m: Meaning, ts: seq<Slot<Tree>>): (ps: seq<Slot<Part>>)
    ensures |ps| == |ts| && forall i :: 0 <= i < |ts| ==> ps[i] == Original(m, ts[i])
  {
    seq(|ts|, i requires 0 <= i < |ts| => Original(m, ts[i]))
  }

  ghost function Rewrites(m: Meaning, ts: seq<Slot<Tree>>): (us: seq<Slot<Tree>>)
    ensures |us| == |ts| && forall i :: 0 <= i < |ts| ==> us[i] == Slot(One, RewriteTree(m, ts[i].at))
  {
    seq(|ts|, i requires 0 <= i < |ts| => Slot(One, RewriteTree(m, ts[i].at)))
  }

  lemma {:induction false} SettleFields(m: Meaning, ts: seq<Slot<Tree>>)
    requires Fields(ts)
    ensures Settle(Originals(m, ts)) == Rewrites(m, ts)
  {
    if ts != [] {
      assert Originals(m, ts)[1..] == Originals(m, ts[1..]);
      SettleFields(m, ts[1..]);
      assert Rewrites(m, ts) == [Slot(One, RewriteTree(m, ts[0].at))] + Rewrites(m, ts[1..]);
    }
  }

  /** The plain rewrite of a node that is left alone. */
  lemma AlonePlain(m: Meaning, w: Tag, ts: seq<Slot<Tree>>)
    requires LeavesAlone(m, w)
    ensures RewriteTree(m, Tree(w, ts)) == Tree(w, Settle(Originals(m, ts)))
  {
    var t := Tree(w, ts);
    assert Plain(m, t) == Originals(m, ts);
    PickIota(Plain(m, t), NONE);
    var u := Tree(w, Nows(Plain(m, t)));
    assert m.pre(t, u) == Go(w, Iota(|ts|), false, false);
    var ks := Settle(Plain(m, t));
    assert m.post(t, Tree(w, ks)) == Build(w, Olds(ks), false);
    GrowOlds(ks);
  }

  lemma {:induction false} VisitAllSplit(v: Visitor, st: State, ks: seq<Slot<Ptr>>, ls: seq<Slot<Ptr>>, d: nat)
    ensures
      var (st1, rs) := VisitAll(v, st, ks, d);
      var (st2, qs) := VisitAll(v, st1, ls, d);
      VisitAll(v, st, ks + ls, d) == (st2, rs + qs)
    decreases |ks|
  {
    if ks == [] {
      assert ks + ls == ls;
      var (st2, qs) := VisitAll(v, st, ls, d);
      assert [] + qs == qs;
    } else {
      assert (ks + ls)[0] == ks[0] && (ks + ls)[1..] == ks[1..] + ls;
      var (st1, r) := Visit(v, st, ks[0].at, d);
      VisitAllSplit(v, st1, ks[1..], ls, d);
      var (st2, rs) := VisitAll(v, st1, ks[1..], d);
      var (st3, qs) := VisitAll(v, st2, ls, d);
      assert Piece(st1.nodes, ks[0], r) + (rs + qs) == Piece(st1.nodes, ks[0], r) + rs + qs;
    }
  }

  lemma VisitField(v: Visitor, st: State, p: Ptr, d: nat)
    ensures
      var (st1, r) := Visit(v, st, p, d);
      VisitAll(v, st, [Slot(One, p)], d) == (st1, [Slot(One, r)])
  {
    var (st1, r) := Visit(v, st, p, d);
    assert [Slot(One, p)][1..] == [];
    assert VisitAll(v, st1, [], d) == (st1, []);
    assert [Slot(One, r)] + [] == [Slot(One, r)];
  }

  lemma {:induction false} ForwardNothing(g: Nodes, visited: map<Id, VisitInfo>, ks: seq<Slot<Ptr>>)
    requires forall i :: 0 <= i < |ks| ==> Known(visited, ks[i].at) == ks[i].at
    ensures Forward(g, visited, ks) == ks
  {
    if ks != [] {
      forall i | 0 <= i < |ks| - 1 ensures Known(visited, ks[1..][i].at) == ks[1..][i].at {
        assert ks[1..][i] == ks[i + 1];
      }
      ForwardNothing(g, visited, ks[1..]);
      assert [ks[0]] + ks[1..] == ks;
    }
  }

  // ---------- a node that is left alone ----------

  /** The state when the visit of `x` has started. */
  function Begun(st: State, x: Id): State
  {
    State(st.nodes, st.next + 1, st.visited[x := VisitInfo(true, Ref(x))], st.bug)
  }

  /** What `x` and its clone have for children. */
  ghost predicate ClonedAs(v: Visitor, st: State, x: Id, ts: seq<Slot<Tree>>, cs: seq<Slot<Tree>>)
    requires x in st.nodes
  {
    UnfoldsAll(st.nodes, st.nodes[x].kids, ts) && UnfoldsAll(st.nodes, Cloned(v, st, x).kids, cs)
  }

  /** What the visits of the children of the clone of `x` return. */
  ghost predicate ClonedBecomes(v: Visitor, st: State, x: Id, us: seq<Slot<Tree>>, d: nat)
    requires x in st.nodes
  {
    var (st2, rs) := VisitAll(v, Begun(st, x), Cloned(v, st, x).kids, d);
    !st2.bug && UnfoldsAll(st2.nodes, rs, us)
  }

  /** A node that is left alone keeps what is in its clone. */
  lemma AloneVisited(
    v: Visitor, m: Meaning, st: State, x: Id, ts: seq<Slot<Tree>>, cs: seq<Slot<Tree>>, d: nat)
    requires Implements(v, m) && x in st.nodes && LeavesAlone(m, st.nodes[x].tag) && x !in st.visited && d > 0
    requires ClonedAs(v, st, x, ts, cs)
    ensures (var ks := Cloned(v, st, x).kids;
      var go := Asked(v, st, x);
      && go == Go(st.nodes[x].tag, Iota(|ks|), false, false)
      && var (st2, rs) := VisitAll(v, Begun(st, x), ks, d - 1);
         Revisited(v, st, x, go, d) == (st2, Frame(st.next, st.next, Node(st.nodes[x].tag, rs))))
  {
    var w, ks := st.nodes[x].tag, Cloned(v, st, x).kids;
    assert m.pre(Tree(w, ts), Tree(w, cs)) == Go(w, Iota(|cs|), false, false);
    assert Cloned(v, st, x) == Node(w, ks);
    PickIota(ks, NULL);
  }

  /** What is returned for it has the results of the children. */
  lemma AloneEnds(
    v: Visitor, m: Meaning, st: State, x: Id, ts: seq<Slot<Tree>>, cs: seq<Slot<Tree>>, us: seq<Slot<Tree>>, d: nat)
    requires Implements(v, m) && x in st.nodes && LeavesAlone(m, st.nodes[x].tag) && x !in st.visited && d > 0
    requires ClonedAs(v, st, x, ts, cs) && Allocated(st.nodes, st.next) && ClonedBecomes(v, st, x, us, d - 1)
    ensures var (st', p) := Visit(v, st, Ref(x), d);
      !st'.bug && Unfolds(st'.nodes, p, Tree(st.nodes[x].tag, us))
  {
    var ks := Cloned(v, st, x).kids;
    var (st2, rs) := VisitAll(v, Begun(st, x), ks, d - 1);
    var f := Frame(st.next, st.next, Node(st.nodes[x].tag, rs));
    BegunAdds(v, st, x, ks, d - 1);
    AlonePosted(v, m, st, x, ts, cs, us, f, st2, d);
    VisitSteps(v, st, x, d);
    AloneCloses(st2, x, f, us);
  }

  lemma AlonePosted(
    v: Visitor, m: Meaning, st: State, x: Id, ts: seq<Slot<Tree>>, cs: seq<Slot<Tree>>, us: seq<Slot<Tree>>, f: Frame,
    st2: State, d: nat)
    requires Implements(v, m) && x in st.nodes && LeavesAlone(m, st.nodes[x].tag) && x !in st.visited && d > 0
    requires ClonedAs(v, st, x, ts, cs) && SubGraph(st.nodes, st2.nodes) && UnfoldsAll(st2.nodes, f.copy.kids, us)
    requires (var (st2', rs) := VisitAll(v, Begun(st, x), Cloned(v, st, x).kids, d - 1);
      st2 == st2' && f == Frame(st.next, st.next, Node(st.nodes[x].tag, rs)))
    ensures Asked(v, st, x).Go? && Visited(v, st, x, d) == (Commit(st2, f, f.copy), f, Ref(f.clone))
  {
    AloneVisited(v, m, st, x, ts, cs, d);
    UnfoldsAllGrows(st.nodes, st2.nodes, st.nodes[x].kids, ts);
    AlonePosts(v, m, st2, st.nodes[x], f, ts, us);
  }

  lemma BegunAdds(v: Visitor, st: State, x: Id, ks: seq<Slot<Ptr>>, d: nat)
    requires Allocated(st.nodes, st.next)
    ensures var st2 := VisitAll(v, Begun(st, x), ks, d).0;
      SubGraph(st.nodes, st2.nodes) && st.next !in st2.nodes
  {
    VisitAllAdds(v, Begun(st, x), ks, d);
  }

  lemma AloneCloses(st2: State, x: Id, f: Frame, us: seq<Slot<Tree>>)
    requires x in st2.visited && x in st2.nodes && f.clone == f.standIn && f.clone !in st2.nodes
    requires UnfoldsAll(st2.nodes, f.copy.kids, us)
    ensures (var (st', p) := Close(Commit(st2, f, f.copy), x, f, Ref(f.clone));
      Unfolds(st'.nodes, p, Tree(f.copy.tag, us)))
  {
    var st3 := Commit(st2, f, f.copy);
    UnfoldsAllGrows(st2.nodes, st3.nodes, f.copy.kids, us);
    UnfoldsNode(st3.nodes, Ref(f.clone), Tree(f.copy.tag, us));
    SameNode(st3.nodes, Ref(f.clone), x, Tree(f.copy.tag, us));
  }

  lemma AlonePosts(
    v: Visitor, m: Meaning, st2: State, n: Node, f: Frame, ts: seq<Slot<Tree>>, us: seq<Slot<Tree>>)
    requires Implements(v, m) && LeavesAlone(m, n.tag) && f.copy.tag == n.tag
    requires UnfoldsAll(st2.nodes, n.kids, ts) && UnfoldsAll(st2.nodes, f.copy.kids, us)
    ensures Postordered(st2, f, v.post(st2.nodes, n, f.copy)) == (Commit(st2, f, f.copy), Ref(f.clone))
  {
    assert m.post(Tree(n.tag, ts), Tree(n.tag, us)) == Build(n.tag, Olds(us), false);
    IdlePlanted(st2, f, us);
  }
}
