/** With forwarded children, what a visit finds depends on what was visited before.  When that shows in
    the result. */
module RewriteHistory {
  import opened IRGraph
  import opened Rewrite
  import opened RewriteState
  import opened RewriteSteps
  import opened RewriteProof
  import opened RewriteKeeps
  import opened RewriteAgain
  import opened RewriteReturned
  import opened RewriteScene

  /** Unless the stack overflows, the run returns the plain rewrite. */
  ghost predicate RunIsPlain(v: Visitor, m: Meaning, g: Nodes, next: Id, root: Ptr, t: Tree, d: nat)
  {
    Closed(g, next) && Unfolds(g, root, t) ==>
      var (st, r) := Run(v, g, next, root, d);
      st.bug || Unfolds(st.nodes, r, RewriteTree(m, t))
  }

  ghost predicate EveryRunIsPlain(v: Visitor, m: Meaning)
  {
    forall g, next, root, t, d: nat :: RunIsPlain(v, m, g, next, root, t, d)
  }

  /** The visit of `t` returns a vector in its place. */
  ghost predicate Dissolves(m: Meaning, t: Tree)
  {
    IsVector(RewriteTree(m, t)) && RewriteTree(m, t) != t
  }

  /** It does not matter for `t` what was visited before. */
  ghost predicate Fit(v: Visitor, m: Meaning, t: Tree)
  {
    StableAt(m, t) && (Dissolves(m, t) ==> Lasting(v, m, t))
  }

  ghost predicate FitBelow(v: Visitor, m: Meaning, t: Tree)
    decreases t
  {
    Fit(v, m, t) && (t.Tree? ==> forall i :: 0 <= i < |t.kids| ==> FitBelow(v, m, t.kids[i].at))
  }

  ghost predicate KidsFitBelow(v: Visitor, m: Meaning, t: Tree)
    requires t.Tree?
  {
    forall i :: 0 <= i < |t.kids| ==> FitBelow(v, m, t.kids[i].at)
  }

  /** What the callbacks do shows: a vector is left alone or changed, and a vector that is returned for
      another node is built by postorder, out of old children and of new nodes; if not all of these are
      kept, visiting them again changes the list of elements. */
  ghost predicate Overt(v: Visitor, m: Meaning)
  {
    && (forall t: Tree :: IsVector(t) && FitBelow(v, m, t) ==> Untouched(v, m, t) || RewriteTree(m, t) != t)
    && (forall t: Tree, done: seq<bool> {:trigger Mix(m, t.kids, done)} ::
          t.Tree? && StableAt(m, t) && KidsFitBelow(v, m, t) && Dissolves(m, t) && |done| == |t.kids| ==>
            OvertFor(v, m, t, Mix(m, t.kids, done)))
  }

  ghost predicate OvertFor(v: Visitor, m: Meaning, t: Tree, seen: seq<Slot<Part>>)
    requires t.Tree?
  {
    BuiltFor(v, m, t, seen) && (LastingFor(v, m, t, seen) || Shows(m, t, seen))
  }

  /** A second vector gets other elements for `t` than the first one. */
  ghost predicate Shows(m: Meaning, t: Tree, seen: seq<Slot<Part>>)
    requires t.Tree?
  {
    Outcome(m, t, seen).Tree? ==> SecondElements(m, t, seen) != Elements(Outcome(m, t, seen))
  }

  // ---------- a condition that is easy to check ----------

  /** Preorder keeps all the children it finds, and what else it does not depend on them. */
  ghost predicate KeepsChildren(m: Meaning, t: Tree, l: Tag)
    requires t.Tree?
  {
    forall c: Tree :: c.Tree? && c.tag == t.tag ==>
      && m.pre(t, c).Go? && m.pre(t, c).tag == l && m.pre(t, c).sel == Iota(|c.kids|) && !m.pre(t, c).prune
  }

  /** Then it does not matter which children have been forwarded: when postorder is called, all of them
      have been visited. */
  lemma KeepingIsStable(m: Meaning, t: Tree, l: Tag)
    requires t.Tree? && KeepsChildren(m, t, l)
    ensures StableAt(m, t)
  {
    assert Plain(m, t) == Originals(m, t.kids);
    KeepingOutcome(m, t, l, Plain(m, t));
    forall done: seq<bool> | |done| == |t.kids| ensures Outcome(m, t, Mix(m, t.kids, done)) == RewriteTree(m, t) {
      MixSettles(m, t.kids, done);
      KeepingOutcome(m, t, l, Mix(m, t.kids, done));
    }
  }

  lemma KeepingOutcome(m: Meaning, t: Tree, l: Tag, seen: seq<Slot<Part>>)
    requires t.Tree? && KeepsChildren(m, t, l)
    ensures Outcome(m, t, seen) == Finished(m, t, l, Settle(seen))
  {
    assert Tree(t.tag, Nows(seen)).tag == t.tag;
    PickIota(seen, NONE);
  }

  /** Forwarded or visited, the children become the same. */
  lemma {:induction false} MixSettles(m: Meaning, ts: seq<Slot<Tree>>, done: seq<bool>)
    requires |done| == |ts|
    ensures Settle(Mix(m, ts, done)) == Settle(Originals(m, ts))
  {
    if ts != [] {
      MixSettles(m, ts[1..], done[1..]);
      var piece := TreePiece(ts[0], RewriteTree(m, ts[0].at));
      assert Originals(m, ts)[1..] == Originals(m, ts[1..]);
      if done[0] {
        SettleSame(piece);
        SettleAppend(Same(piece), Mix(m, ts[1..], done[1..]));
      } else {
        assert Mix(m, ts, done)[1..] == Mix(m, ts[1..], done[1..]);
      }
    }
  }

  lemma {:induction false} SettleAppend(ps: seq<Slot<Part>>, qs: seq<Slot<Part>>)
    ensures Settle(ps + qs) == Settle(ps) + Settle(qs)
  {
    if ps == [] {
      assert ps + qs == qs;
    } else {
      SettleAppend(ps[1..], qs);
      SettleFirst(ps + qs, ps[1..] + qs);
      Regroup(TreePiece(Now(ps[0]), ps[0].at.result), Settle(ps[1..]), Settle(qs));
    }
  }

  lemma SettleFirst(ps: seq<Slot<Part>>, rest: seq<Slot<Part>>)
    requires ps != [] && ps[1..] == rest
    ensures Settle(ps) == TreePiece(Now(ps[0]), ps[0].at.result) + Settle(rest)
  {}

  lemma Regroup<T>(a: seq<T>, b: seq<T>, c: seq<T>)
    ensures a + (b + c) == a + b + c
  {}

  // ---------- what fits is sound ----------

  lemma {:induction false} FitIsSound(v: Visitor, m: Meaning, t: Tree)
    requires Overt(v, m) && FitBelow(v, m, t)
    ensures SoundBelow(v, m, t) && forall k :: ElementSound(v, m, Slot(k, t))
    decreases t
  {
    if t.Tree? {
      forall i | 0 <= i < |t.kids| ensures ElementSound(v, m, t.kids[i]) && SoundBelow(v, m, t.kids[i].at) {
        FitIsSound(v, m, t.kids[i].at);
        assert t.kids[i] == Slot(t.kids[i].kind, t.kids[i].at);
      }
    }
  }

  lemma {:induction false} AllFit(v: Visitor, m: Meaning, t: Tree)
    requires forall u: Tree :: Fit(v, m, u)
    ensures FitBelow(v, m, t)
    decreases t
  {
    if t.Tree? {
      forall i | 0 <= i < |t.kids| ensures FitBelow(v, m, t.kids[i].at) { AllFit(v, m, t.kids[i].at); }
    }
  }

  lemma {:induction false} LowestUnfit(v: Visitor, m: Meaning, t: Tree) returns (u: Tree)
    requires !FitBelow(v, m, t)
    ensures u.Tree? && !Fit(v, m, u) && KidsFitBelow(v, m, u)
    decreases t
  {
    if t.Tree? && !(forall i :: 0 <= i < |t.kids| ==> FitBelow(v, m, t.kids[i].at)) {
      var i :| 0 <= i < |t.kids| && !FitBelow(v, m, t.kids[i].at);
      u := LowestUnfit(v, m, t.kids[i].at);
    } else {
      u := t;
    }
  }

  lemma KidsFit(v: Visitor, m: Meaning, t: Tree)
    requires Overt(v, m) && t.Tree? && KidsFitBelow(v, m, t)
    ensures KidsSound(v, m, t.kids)
  {
    forall i | 0 <= i < |t.kids| ensures ElementSound(v, m, t.kids[i]) && SoundBelow(v, m, t.kids[i].at) {
      FitIsSound(v, m, t.kids[i].at);
      assert t.kids[i] == Slot(t.kids[i].kind, t.kids[i].at);
    }
  }

  // ---------- the scene ----------

  /** The graph in which the chosen children of `t` are also fields of the root, before `t` itself: they
      are visited first, and have the ids below `low`.  A vector `w` holds `t` once more, and is the last
      field of the root if `twice`. */
  datatype Scene = Scene(g: Nodes, low: Id, x: Id, w: Id, root: Id, ks: seq<Slot<Ptr>>)

  /** The class of the root, and a vector class. */
  datatype Classes = Classes(record: Tag, vector: Tag)

  /** The visitor leaves both alone. */
  ghost predicate LeavesBothAlone(m: Meaning, cs: Classes)
  {
    LeavesAlone(m, cs.record) && LeavesAlone(m, cs.vector) && cs.vector.vector
  }

  ghost predicate SceneOk(c: Scene, cs: Classes, t: Tree, keep: seq<bool>, twice: bool)
    requires t.Tree? && |keep| == |t.kids|
  {
    Layered(c) && ChildrenOk(c, t, keep) && TopOk(c, cs, t, keep, twice)
  }

  ghost predicate Layered(c: Scene)
  {
    && c.low <= c.x && c.w == c.x + 1 && c.root == c.x + 2 && Closed(c.g, c.root + 1)
    && (forall y :: y in c.g && y < c.low ==> PtrsIn(c.g[y].kids, c.low, {}))
    && (forall y :: y in c.g && y <= c.x ==> PtrsIn(c.g[y].kids, c.x, {}))
  }

  ghost predicate ChildrenOk(c: Scene, t: Tree, keep: seq<bool>)
    requires t.Tree? && |keep| == |t.kids|
  {
    && UnfoldsAll(c.g, c.ks, t.kids)
    && forall i :: 0 <= i < |c.ks| && c.ks[i].at.Ref? ==>
         c.ks[i].at.id in c.g && c.ks[i].at.id < c.x && (keep[i] <==> c.ks[i].at.id < c.low)
  }

  ghost predicate TopOk(c: Scene, cs: Classes, t: Tree, keep: seq<bool>, twice: bool)
    requires t.Tree? && |keep| == |t.kids|
  {
    && c.x in c.g && c.w in c.g && c.root in c.g && |c.ks| == |t.kids| && c.g[c.x] == Node(t.tag, c.ks)
    && c.g[c.w] == Node(cs.vector, [Slot(Elem(0), Ref(c.x))])
    && c.g[c.root] == Node(cs.record, Chosen(c.ks, keep) + Last(Ref(c.x), Ref(c.w), twice))
  }

  function Last<T>(x: T, w: T, twice: bool): seq<Slot<T>>
  {
    [Slot(One, x)] + if twice then [Slot(One, w)] else []
  }

  /** The tree of the root. */
  function RootTree(cs: Classes, t: Tree, keep: seq<bool>, twice: bool): Tree
    requires t.Tree? && |keep| == |t.kids|
  {
    Tree(cs.record, Chosen(t.kids, keep) + Last(t, VectorTree(cs, t), twice))
  }

  function VectorTree(cs: Classes, t: Tree): Tree
  {
    Tree(cs.vector, [Slot(Elem(0), t)])
  }

  lemma Stage(cs: Classes, t: Tree, keep: seq<bool>, twice: bool) returns (c: Scene)
    requires t.Tree? && |keep| == |t.kids|
    ensures SceneOk(c, cs, t, keep, twice)
  {
    var g1, low, ks1 := EmbedSome(map[], 0, t.kids, keep);
    var g2, x, ks2 := EmbedSome(g1, low, t.kids, seq(|keep|, i requires 0 <= i < |keep| => !keep[i]));
    var ks := seq(|t.kids|, i requires 0 <= i < |t.kids| => if keep[i] then ks1[i] else ks2[i]);
    forall i | 0 <= i < |t.kids| ensures UnfoldsAt(g2, ks[i], t.kids[i]) {
      if keep[i] { UnfoldsGrows(g1, g2, ks1[i].at, t.kids[i].at); }
    }
    c := StageTop(cs, t, keep, twice, g1, low, g2, x, ks);
  }

  /** The last nodes of the scene. */
  lemma StageTop(
    cs: Classes, t: Tree, keep: seq<bool>, twice: bool, g1: Nodes, low: Id, g2: Nodes, x: Id, ks: seq<Slot<Ptr>>)
    returns (c: Scene)
    requires t.Tree? && |keep| == |t.kids| && Closed(g1, low) && Closed(g2, x) && SubGraph(g1, g2) && low <= x
    requires (forall y :: y in g2 ==> y in g1 || y >= low) && UnfoldsAll(g2, ks, t.kids)
    requires forall i ::
      0 <= i < |ks| && ks[i].at.Ref? ==> if keep[i] then ks[i].at.id < low else low <= ks[i].at.id < x
    ensures SceneOk(c, cs, t, keep, twice)
  {
    var g3 := g2[x := Node(t.tag, ks)][x + 1 := Node(cs.vector, [Slot(Elem(0), Ref(x))])];
    var g := g3[x + 2 := Node(cs.record, Chosen(ks, keep) + Last(Ref(x), Ref(x + 1), twice))];
    c := Scene(g, low, x, x + 1, x + 2, ks);
    UnfoldsAllGrows(g2, g, ks, t.kids);
    forall i | 0 <= i < |ks| && ks[i].at.Ref? ensures ks[i].at.id in g2 { assert UnfoldsAt(g2, ks[i], t.kids[i]); }
    ChosenInside(g2, t.kids, ks, keep);
    StageLayers(g1, low, g2, x, g);
    StageLayered(c, ks, keep, twice);
  }

  lemma StageLayered(c: Scene, ks: seq<Slot<Ptr>>, keep: seq<bool>, twice: bool)
    requires c.low <= c.x && c.w == c.x + 1 && c.root == c.x + 2 && |keep| == |ks|
    requires c.x in c.g && c.w in c.g && c.root in c.g && forall y :: y in c.g ==> y <= c.root
    requires c.g[c.x].kids == ks
    requires forall i :: 0 <= i < |ks| && ks[i].at.Ref? ==> ks[i].at.id < c.x && ks[i].at.id in c.g
    requires c.g[c.w].kids == [Slot(Elem(0), Ref(c.x))]
    requires c.g[c.root].kids == Chosen(ks, keep) + Last(Ref(c.x), Ref(c.w), twice)
    requires forall j :: 0 <= j < |Chosen(ks, keep)| && Chosen(ks, keep)[j].at.Ref? ==> Chosen(ks, keep)[j].at.id in c.g
    requires forall y :: y in c.g && y < c.low ==> PtrsIn(c.g[y].kids, c.low, {})
    requires forall y :: y in c.g && y < c.x ==> PtrsIn(c.g[y].kids, c.x, {}) && Within(c.g[y].kids, c.g.Keys)
    ensures Layered(c)
  {
    forall y | y in c.g ensures Within(c.g[y].kids, c.g.Keys) {}
  }

  lemma ChosenInside(g: Nodes, ts: seq<Slot<Tree>>, ks: seq<Slot<Ptr>>, keep: seq<bool>)
    requires |keep| == |ks| == |ts| && forall i :: 0 <= i < |ks| && ks[i].at.Ref? ==> ks[i].at.id in g
    ensures forall j :: 0 <= j < |Chosen(ks, keep)| && Chosen(ks, keep)[j].at.Ref? ==> Chosen(ks, keep)[j].at.id in g
  {
    forall j | 0 <= j < |Chosen(ks, keep)| && Chosen(ks, keep)[j].at.Ref? ensures Chosen(ks, keep)[j].at.id in g {
      var i := ChosenFrom(ks, ts, keep, j);
    }
  }

  /** The lower nodes point down. */
  lemma StageLayers(g1: Nodes, low: Id, g2: Nodes, x: Id, g: Nodes)
    requires Closed(g1, low) && Closed(g2, x) && SubGraph(g1, g2) && SubGraph(g2, g) && low <= x
    requires (forall y :: y in g2 ==> y in g1 || y >= low) && forall y :: y in g ==> y in g2 || y >= x
    ensures forall y :: y in g && y < low ==> PtrsIn(g[y].kids, low, {})
    ensures forall y :: y in g && y < x ==> PtrsIn(g[y].kids, x, {}) && Within(g[y].kids, g.Keys)
  {
    assert Inside(g1, g1.Keys) && Inside(g2, g2.Keys);
    forall y | y in g && y < low ensures PtrsIn(g[y].kids, low, {}) { assert Within(g1[y].kids, g1.Keys); }
    forall y | y in g && y < x ensures PtrsIn(g[y].kids, x, {}) && Within(g[y].kids, g.Keys) {
      assert Within(g2[y].kids, g2.Keys);
    }
  }

  lemma RootUnfolds(c: Scene, cs: Classes, t: Tree, keep: seq<bool>, twice: bool)
    requires t.Tree? && |keep| == |t.kids| && SceneOk(c, cs, t, keep, twice)
    ensures Unfolds(c.g, Ref(c.x), t) && Unfolds(c.g, Ref(c.w), VectorTree(cs, t))
    ensures UnfoldsAll(c.g, Chosen(c.ks, keep), Chosen(t.kids, keep))
    ensures UnfoldsAll(c.g, c.g[c.root].kids, RootTree(cs, t, keep, twice).kids)
    ensures Unfolds(c.g, Ref(c.root), RootTree(cs, t, keep, twice))
  {
    UnfoldsNode(c.g, Ref(c.x), t);
    UnfoldsOne(c.g, Slot(Elem(0), Ref(c.x)), Slot(Elem(0), t));
    UnfoldsNode(c.g, Ref(c.w), VectorTree(cs, t));
    ChosenUnfold(c.g, c.ks, t.kids, keep);
    var ls, us := Last(Ref(c.x), Ref(c.w), twice), Last(t, VectorTree(cs, t), twice);
    forall i | 0 <= i < |ls| ensures UnfoldsAt(c.g, ls[i], us[i]) {}
    UnfoldsAppend(c.g, Chosen(c.ks, keep), Chosen(t.kids, keep), ls, us);
    UnfoldsNode(c.g, Ref(c.root), RootTree(cs, t, keep, twice));
  }

  // ---------- a run in the scene ----------

  /** The root has been opened. */
  function RootBegun(c: Scene): State
  {
    Begun(State(c.g, c.root + 1, map[], false), c.root)
  }

  lemma RootAbove(c: Scene, cs: Classes, t: Tree, keep: seq<bool>, twice: bool)
    requires t.Tree? && |keep| == |t.kids| && SceneOk(c, cs, t, keep, twice)
    ensures Above(RootBegun(c), c.g.Keys, Height(t))
  {
    RootUnfolds(c, cs, t, keep, twice);
    var us, n := RootTree(cs, t, keep, twice).kids, |Chosen(t.kids, keep)|;
    assert us[n] == Slot(One, t);
    HeightOfKid(us, n);
    assert StackEntry(RootBegun(c), c.root, Height(t));
  }

  /** The chosen children have been visited. */
  ghost predicate FirstWell(
    v: Visitor, m: Meaning, c: Scene, t: Tree, keep: seq<bool>, st2: State, rs: seq<Slot<Ptr>>)
    requires t.Tree? && |keep| == |t.kids| == |c.ks|
  {
    && Good(v, m, st2, c.g.Keys) && Extends(v, c.g.Keys, RootBegun(c), st2)
    && UnfoldsAll(st2.nodes, rs, Rewrites(m, Chosen(t.kids, keep)))
    && (forall i :: 0 <= i < |c.ks| && c.ks[i].at.Ref? ==> (Done(st2.visited, c.ks[i].at.id) <==> keep[i]))
    && Tidy(st2, {c.w, c.root}) && c.x !in st2.visited && c.w !in st2.visited
  }

  lemma FirstKids(v: Visitor, m: Meaning, c: Scene, cs: Classes, t: Tree, keep: seq<bool>, twice: bool, d: nat)
    requires Implements(v, m) && v.Forwards() && t.Tree? && |keep| == |t.kids| && SceneOk(c, cs, t, keep, twice)
    requires KidsSound(v, m, t.kids) && d >= Need(m, t)
    ensures var (st2, rs) := VisitAll(v, RootBegun(c), Chosen(c.ks, keep), d);
      FirstWell(v, m, c, t, keep, st2, rs)
  {
    FirstGood(v, m, c, cs, t, keep, twice, d);
    FirstTidy(v, m, c, cs, t, keep, twice, d);
  }

  lemma FirstGood(v: Visitor, m: Meaning, c: Scene, cs: Classes, t: Tree, keep: seq<bool>, twice: bool, d: nat)
    requires Implements(v, m) && v.Forwards() && t.Tree? && |keep| == |t.kids| && SceneOk(c, cs, t, keep, twice)
    requires KidsSound(v, m, t.kids) && d >= Need(m, t)
    ensures var (st2, rs) := VisitAll(v, RootBegun(c), Chosen(c.ks, keep), d);
      && Good(v, m, st2, c.g.Keys) && Extends(v, c.g.Keys, RootBegun(c), st2)
      && UnfoldsAll(st2.nodes, rs, Rewrites(m, Chosen(t.kids, keep)))
  {
    var st1, jks, jts := RootBegun(c), Chosen(c.ks, keep), Chosen(t.kids, keep);
    RootUnfolds(c, cs, t, keep, twice);
    RootAbove(c, cs, t, keep, twice);
    forall j | 0 <= j < |jts|
      ensures jts[j].kind == One && Expected(v, m, st1, c.g.Keys, jks[j], Originals(m, jts)[j], d, Height(t))
    {
      var i := ChosenFrom(c.ks, t.kids, keep, j);
      assert UnfoldsAt(c.g, jks[j], jts[j]) && SoundBelow(v, m, t.kids[i].at);
      NeedOfKid(m, t.kids, i);
      HeightOfKid(t.kids, i);
    }
    ListOk(v, m, st1, c.g.Keys, jks, Originals(m, jts), d, Height(t));
    SettleFields(m, jts);
  }

  lemma FirstTidy(v: Visitor, m: Meaning, c: Scene, cs: Classes, t: Tree, keep: seq<bool>, twice: bool, d: nat)
    requires v.visitDagOnce && t.Tree? && |keep| == |t.kids| && SceneOk(c, cs, t, keep, twice) && d > 0
    requires Extends(v, c.g.Keys, RootBegun(c), VisitAll(v, RootBegun(c), Chosen(c.ks, keep), d).0)
    ensures var st2 := VisitAll(v, RootBegun(c), Chosen(c.ks, keep), d).0;
      && (forall i :: 0 <= i < |c.ks| && c.ks[i].at.Ref? ==> (Done(st2.visited, c.ks[i].at.id) <==> keep[i]))
      && Tidy(st2, {c.w, c.root}) && c.x !in st2.visited && c.w !in st2.visited
  {
    var high := set y | y in c.g && y >= c.low;
    var st2 := VisitAll(v, RootBegun(c), Chosen(c.ks, keep), d).0;
    FirstBelow(v, c, cs, t, keep, twice, high, d);
    FirstBelow(v, c, cs, t, keep, twice, {c.w, c.root}, d);
    forall i | 0 <= i < |c.ks| && c.ks[i].at.Ref? ensures Done(st2.visited, c.ks[i].at.id) <==> keep[i] {
      if keep[i] { ChosenMet(v, c, cs, t, keep, twice, i, d); }
    }
  }

  /** The nodes above the chosen children are not met. */
  lemma FirstBelow(
    v: Visitor, c: Scene, cs: Classes, t: Tree, keep: seq<bool>, twice: bool, shut: set<Id>, d: nat)
    requires v.visitDagOnce && t.Tree? && |keep| == |t.kids| && SceneOk(c, cs, t, keep, twice)
    requires shut == (set y | y in c.g && y >= c.low) || shut == {c.w, c.root}
    ensures Keeps(RootBegun(c), VisitAll(v, RootBegun(c), Chosen(c.ks, keep), d).0, shut)
  {
    var jks := Chosen(c.ks, keep);
    forall j | 0 <= j < |jks| ensures PtrIn(jks[j].at, c.root + 2, shut) {
      var i := ChosenFrom(c.ks, t.kids, keep, j);
    }
    TidyScene(c, cs, t, keep, twice, set y | y in c.g && y >= c.low, {c.w, c.root});
    VisitAllKeeps(v, RootBegun(c), jks, d, shut);
  }

  lemma ChosenMet(v: Visitor, c: Scene, cs: Classes, t: Tree, keep: seq<bool>, twice: bool, i: nat, d: nat)
    requires t.Tree? && |keep| == |t.kids| && SceneOk(c, cs, t, keep, twice) && d > 0
    requires i < |c.ks| && keep[i] && c.ks[i].at.Ref?
    ensures c.ks[i].at.id in VisitAll(v, RootBegun(c), Chosen(c.ks, keep), d).0.visited
  {
    var j := ChosenAt(c.ks, keep, i);
    VisitAllMeets(v, RootBegun(c), Chosen(c.ks, keep), d, j);
  }

  lemma TidyScene(
    c: Scene, cs: Classes, t: Tree, keep: seq<bool>, twice: bool, high: set<Id>, top: set<Id>)
    requires t.Tree? && |keep| == |t.kids| && SceneOk(c, cs, t, keep, twice)
    requires high == (set y | y in c.g && y >= c.low) && top == {c.w, c.root}
    ensures Tidy(RootBegun(c), high) && Tidy(RootBegun(c), top)
  {
    forall y | y in c.g && y !in high ensures PtrsIn(c.g[y].kids, c.root + 2, high) {
      assert PtrsIn(c.g[y].kids, c.low, {});
    }
    forall y | y in c.g && y !in top ensures PtrsIn(c.g[y].kids, c.root + 2, top) {
      assert PtrsIn(c.g[y].kids, c.x, {});
    }
  }

  /** Marks of null children do not matter. */
  lemma {:induction false} MixAgrees(m: Meaning, ts: seq<Slot<Tree>>, a: seq<bool>, b: seq<bool>)
    requires |a| == |b| == |ts| && forall i :: 0 <= i < |ts| ==> a[i] == b[i] || ts[i].at.Nil?
    ensures Mix(m, ts, a) == Mix(m, ts, b)
  {
    if ts != [] {
      MixAgrees(m, ts[1..], a[1..], b[1..]);
      assert ts[0].at.Nil? ==> Same(TreePiece(ts[0], RewriteTree(m, ts[0].at))) == [Original(m, ts[0])];
    }
  }

  /** When `x` is visited next, its clone has the chosen children forwarded and the others not. */
  lemma ThenNode(
    v: Visitor, m: Meaning, c: Scene, cs: Classes, t: Tree, keep: seq<bool>, twice: bool, st2: State,
    rs: seq<Slot<Ptr>>, d: nat)
    requires Implements(v, m) && v.Forwards() && t.Tree? && |keep| == |t.kids| && SceneOk(c, cs, t, keep, twice)
    requires KidsSound(v, m, t.kids) && d >= Need(m, t) && FirstWell(v, m, c, t, keep, st2, rs)
    ensures Enterable(v, st2, c.g.Keys, c.x, t) && Seen(v, m, st2, c.x, t) == Mix(m, t.kids, keep)
    ensures Inside(st2.nodes, c.g.Keys) && Above(st2, c.g.Keys, Height(t))
    ensures d > 0 && Finds(v, m, st2, c.g.Keys, c.x, t, Mix(m, t.kids, keep), d)
  {
    RootUnfolds(c, cs, t, keep, twice);
    UnfoldsGrows(c.g, st2.nodes, Ref(c.x), t);
    InsideGrows(c.g, st2.nodes, c.g.Keys);
    RootAbove(c, cs, t, keep, twice);
    AboveGrows(v, c.g.Keys, RootBegun(c), st2, Height(t));
    var done := DoneOf(v, st2, c.ks);
    forall i | 0 <= i < |c.ks| ensures done[i] == keep[i] || t.kids[i].at.Nil? {
      assert UnfoldsAt(c.g, c.ks[i], t.kids[i]);
    }
    MixAgrees(m, t.kids, done, keep);
    FindsSeen(v, m, st2, c.g.Keys, c.x, t, d);
  }

  /** Whatever a visit finds in the clone, it returns the outcome for that. */
  lemma VisitOutcome(
    v: Visitor, m: Meaning, st: State, orig: set<Id>, x: Id, t: Tree, seen: seq<Slot<Part>>, d: nat)
    requires Implements(v, m) && Good(v, m, st, orig) && Finds(v, m, st, orig, x, t, seen, d)
    ensures var (st', r) := Visit(v, st, Ref(x), d);
      !st'.bug && Unfolds(st'.nodes, r, Outcome(m, t, seen))
  {
    AskedMeans(v, m, st, orig, x, t, seen, d);
    if Asked(v, st, x).Remove? {
      VisitStops(v, st, x, d);
    } else {
      VisitedOk(v, m, st, orig, x, t, seen, d);
      VisitSteps(v, st, x, d);
      var (st3, f, final) := Visited(v, st, x, d);
      CloseUnfolds(v, m, orig, st, st3, x, t, Outcome(m, t, seen), LastingFor(v, m, t, seen), f, final);
    }
  }

  /** The visits of the root's children return `us`. */
  ghost predicate KidsBecome(v: Visitor, c: Scene, us: seq<Slot<Tree>>, d: nat)
    requires c.root in c.g
  {
    var (st, rs) := VisitAll(v, RootBegun(c), c.g[c.root].kids, d);
    !st.bug && UnfoldsAll(st.nodes, rs, us)
  }

  /** The run on the scene returns what the visits of the root's children return. */
  lemma RootRun(
    v: Visitor, m: Meaning, c: Scene, cs: Classes, t: Tree, keep: seq<bool>, twice: bool, us: seq<Slot<Tree>>, d: nat)
    requires Implements(v, m) && v.Forwards() && LeavesBothAlone(m, cs)
    requires t.Tree? && |keep| == |t.kids| && SceneOk(c, cs, t, keep, twice) && d > 0 && KidsBecome(v, c, us, d - 1)
    ensures Yields(v, c.g, c.root + 1, Ref(c.root), d, Tree(cs.record, us))
  {
    var st0, ks := State(c.g, c.root + 1, map[], false), c.g[c.root].kids;
    RootUnfolds(c, cs, t, keep, twice);
    forall i | 0 <= i < |ks| ensures Known(Started(st0.visited, c.root), ks[i].at) == ks[i].at {}
    ForwardNothing(c.g, Started(st0.visited, c.root), ks);
    assert Cloned(v, st0, c.root).kids == ks;
    assert ClonedBecomes(v, st0, c.root, us, d - 1);
    AloneEnds(v, m, st0, c.root, RootTree(cs, t, keep, twice).kids, RootTree(cs, t, keep, twice).kids, us, d);
  }

  /** It is the plain rewrite exactly if these are the plain rewrites of the children. */
  lemma RunPlainIff(
    v: Visitor, m: Meaning, c: Scene, cs: Classes, t: Tree, keep: seq<bool>, twice: bool, us: seq<Slot<Tree>>, d: nat)
    requires LeavesBothAlone(m, cs) && t.Tree? && |keep| == |t.kids| && SceneOk(c, cs, t, keep, twice)
    requires d >= Need(m, RootTree(cs, t, keep, twice))
    requires Yields(v, c.g, c.root + 1, Ref(c.root), d, Tree(cs.record, us))
    ensures RunIsPlain(v, m, c.g, c.root + 1, Ref(c.root), RootTree(cs, t, keep, twice), d) <==>
      us == Rewrites(m, RootTree(cs, t, keep, twice).kids)
  {
    var ts := RootTree(cs, t, keep, twice).kids;
    var (st, p) := Run(v, c.g, c.root + 1, Ref(c.root), d);
    RootUnfolds(c, cs, t, keep, twice);
    ChosenFields(t.kids, keep);
    AlonePlain(m, cs.record, ts);
    SettleFields(m, ts);
    if Unfolds(st.nodes, p, Tree(cs.record, Rewrites(m, ts))) {
      UnfoldsUnique(st.nodes, p, Tree(cs.record, us), Tree(cs.record, Rewrites(m, ts)));
    }
  }

  lemma {:induction false} ChosenFields(ts: seq<Slot<Tree>>, keep: seq<bool>)
    requires |keep| == |ts|
    ensures Fields(Chosen(ts, keep))
  {
    if ts != [] { ChosenFields(ts[1..], keep[1..]); }
  }

  /** What is needed for the root is enough for its last children. */
  lemma RootNeeds(m: Meaning, cs: Classes, t: Tree, keep: seq<bool>, twice: bool, d: nat)
    requires t.Tree? && |keep| == |t.kids| && d >= Need(m, RootTree(cs, t, keep, twice))
    ensures d > 0 && d - 1 >= Need(m, t) && (twice ==> d - 2 >= Height(RewriteTree(m, t)))
  {
    var us, n := RootTree(cs, t, keep, twice).kids, |Chosen(t.kids, keep)|;
    assert us[n] == Slot(One, t);
    NeedOfKid(m, us, n);
    if twice {
      assert us[n + 1] == Slot(One, VectorTree(cs, t));
      NeedOfKid(m, us, n + 1);
      NeedOfKid(m, VectorTree(cs, t).kids, 0);
    }
  }

  /** For a mixture with another outcome there is a run that meets just that mixture, and it is not the
      plain rewrite. */
  lemma TooLate(v: Visitor, m: Meaning, cs: Classes, t: Tree, done: seq<bool>, d: nat) returns (c: Scene)
    requires Implements(v, m) && v.Forwards() && LeavesBothAlone(m, cs) && t.Tree? && |done| == |t.kids|
    requires KidsSound(v, m, t.kids) && d >= Need(m, RootTree(cs, t, done, false))
    requires Outcome(m, t, Mix(m, t.kids, done)) != RewriteTree(m, t)
    ensures SceneOk(c, cs, t, done, false)
    ensures !RunIsPlain(v, m, c.g, c.root + 1, Ref(c.root), RootTree(cs, t, done, false), d)
    ensures Yields(v, c.g, c.root + 1, Ref(c.root), d, Tree(cs.record, LateRewrites(m, t, done)))
  {
    c := Stage(cs, t, done, false);
    LateRun(v, m, c, cs, t, done, d);
    LateShows(v, m, c, cs, t, done, d);
  }

  /** What the children of the root become if `t` is met last. */
  ghost function LateRewrites(m: Meaning, t: Tree, done: seq<bool>): (us: seq<Slot<Tree>>)
    requires t.Tree? && |done| == |t.kids|
  {
    Rewrites(m, Chosen(t.kids, done)) + [Slot(One, Outcome(m, t, Mix(m, t.kids, done)))]
  }

  lemma LateKids(v: Visitor, m: Meaning, c: Scene, cs: Classes, t: Tree, done: seq<bool>, d: nat)
    requires Implements(v, m) && v.Forwards() && t.Tree? && |done| == |t.kids|
    requires SceneOk(c, cs, t, done, false) && KidsSound(v, m, t.kids) && d >= Need(m, t)
    ensures KidsBecome(v, c, LateRewrites(m, t, done), d)
  {
    var jks, jts, o := Chosen(c.ks, done), Chosen(t.kids, done), Outcome(m, t, Mix(m, t.kids, done));
    FirstKids(v, m, c, cs, t, done, false, d);
    var (st2, rs) := VisitAll(v, RootBegun(c), jks, d);
    ThenNode(v, m, c, cs, t, done, false, st2, rs, d);
    VisitOutcome(v, m, st2, c.g.Keys, c.x, t, Mix(m, t.kids, done), d);
    AppendField(v, RootBegun(c), jks, Ref(c.x), Rewrites(m, jts), o, d);
    assert c.g[c.root].kids == jks + [Slot(One, Ref(c.x))];
  }

  lemma LateRun(v: Visitor, m: Meaning, c: Scene, cs: Classes, t: Tree, done: seq<bool>, d: nat)
    requires Implements(v, m) && v.Forwards() && LeavesBothAlone(m, cs) && t.Tree? && |done| == |t.kids|
    requires SceneOk(c, cs, t, done, false) && KidsSound(v, m, t.kids) && d >= Need(m, RootTree(cs, t, done, false))
    ensures Yields(v, c.g, c.root + 1, Ref(c.root), d, Tree(cs.record, LateRewrites(m, t, done)))
  {
    RootNeeds(m, cs, t, done, false, d);
    LateKids(v, m, c, cs, t, done, d - 1);
    RootRun(v, m, c, cs, t, done, false, LateRewrites(m, t, done), d);
  }

  lemma LateShows(v: Visitor, m: Meaning, c: Scene, cs: Classes, t: Tree, done: seq<bool>, d: nat)
    requires LeavesBothAlone(m, cs) && t.Tree? && |done| == |t.kids|
    requires SceneOk(c, cs, t, done, false) && d >= Need(m, RootTree(cs, t, done, false))
    requires Outcome(m, t, Mix(m, t.kids, done)) != RewriteTree(m, t)
    requires Yields(v, c.g, c.root + 1, Ref(c.root), d, Tree(cs.record, LateRewrites(m, t, done)))
    ensures !RunIsPlain(v, m, c.g, c.root + 1, Ref(c.root), RootTree(cs, t, done, false), d)
  {
    var n := |Chosen(t.kids, done)|;
    assert LateRewrites(m, t, done)[n].at == Outcome(m, t, Mix(m, t.kids, done));
    assert Rewrites(m, RootTree(cs, t, done, false).kids)[n].at == RewriteTree(m, t);
    RunPlainIff(v, m, c, cs, t, done, false, LateRewrites(m, t, done), d);
  }

  /** One more field is visited. */
  lemma AppendField(v: Visitor, st: State, ks: seq<Slot<Ptr>>, p: Ptr, us: seq<Slot<Tree>>, o: Tree, d: nat)
    requires Allocated(st.nodes, st.next)
    requires (var (st1, rs) := VisitAll(v, st, ks, d);
      var (st2, r) := Visit(v, st1, p, d);
      UnfoldsAll(st1.nodes, rs, us) && Unfolds(st2.nodes, r, o))
    ensures (var (st1, rs) := VisitAll(v, st, ks, d);
      var (st2, r) := Visit(v, st1, p, d);
      var (st', all) := VisitAll(v, st, ks + [Slot(One, p)], d);
      st' == st2 && UnfoldsAll(st'.nodes, all, us + [Slot(One, o)]))
  {
    var (st1, rs) := VisitAll(v, st, ks, d);
    var (st2, r) := Visit(v, st1, p, d);
    VisitAllSplit(v, st, ks, [Slot(One, p)], d);
    VisitField(v, st1, p, d);
    VisitAllAdds(v, st, ks, d);
    VisitAdds(v, st1, p, d);
    UnfoldsAllGrows(st1.nodes, st2.nodes, rs, us);
    UnfoldsOne(st2.nodes, Slot(One, r), Slot(One, o));
    UnfoldsAppend(st2.nodes, rs, us, [Slot(One, r)], [Slot(One, o)]);
  }

  // ---------- a vector that is met twice ----------

  lemma AgainRekind(
    v: Visitor, m: Meaning, st: State, ks: seq<Slot<Ptr>>, ts: seq<Slot<Tree>>, marks: seq<bool>, k: Kind)
    requires AllAgain(v, m, st, {}, ks, ts, marks)
    ensures AllAgain(v, m, st, {}, Rekind(ks, k), Rekind(ts, k), marks)
  {
    forall i | 0 <= i < |ts| ensures Again(v, m, st, {}, Rekind(ks, k)[i], Rekind(ts, k)[i], marks[i]) {
      assert Again(v, m, st, {}, ks[i], ts[i], marks[i]);
    }
  }

  /** The visit of `w` has started: what was returned for `x` is in its clone. */
  lemma SecondBegun(v: Visitor, m: Meaning, st: State, orig: set<Id>, w: Id, o: Tree, r: Ptr, marks: seq<bool>)
    requires v.Forwards() && Good(v, m, st, orig) && w in orig && w !in st.visited
    requires o.Tree? && ElementsAgain(v, m, st, orig, r, o, marks)
    ensures Basic(v, Begun(st, w))
    ensures AllAgain(v, m, Begun(st, w), {}, Rekind(st.nodes[r.id].kids, Elem(0)), Elements(o), marks)
  {
    var st1, ks := Begun(st, w), st.nodes[r.id].kids;
    assert Settles(orig, st, st1);
    forall i | 0 <= i < |ks| && marks[i] && ks[i].at.Ref? ensures ks[i].at.id !in st1.visited {
      assert Again(v, m, st, orig, ks[i], o.kids[i], marks[i]);
    }
    AllAgainGrows(v, m, st, st1, orig, ks, o.kids, marks);
    AgainNarrow(v, m, st1, orig, ks, o.kids, marks);
    AgainRekind(v, m, st1, ks, o.kids, marks, Elem(0));
    forall y: Id | Done(st1.visited, y) ensures Fixed(st1, st1.visited[y].result) {
      assert Fixed(st, st.visited[y].result);
    }
  }

  lemma SecondCloned(v: Visitor, st: State, cs: Classes, x: Id, w: Id, t: Tree, o: Tree, r: Ptr)
    requires v.Forwards() && w in st.nodes && st.nodes[w].kids == [Slot(Elem(0), Ref(x))] && w !in st.visited
    requires Done(st.visited, x) && st.visited[x].result == r && w != x
    requires Unfolds(st.nodes, Ref(x), t) && Unfolds(st.nodes, r, o) && IsVector(o) && o != t
    ensures Cloned(v, st, w).kids == Rekind(st.nodes[r.id].kids, Elem(0))
    ensures ClonedAs(v, st, w, [Slot(Elem(0), t)], Elements(o))
  {
    if r == Ref(x) { UnfoldsUnique(st.nodes, r, t, o); }
    var ks, ts := st.nodes[r.id].kids, Elements(o);
    assert st.nodes[w].kids[1..] == [];
    assert Forward(st.nodes, Started(st.visited, w), st.nodes[w].kids) == Rekind(ks, Elem(0)) + [];
    UnfoldsOne(st.nodes, Slot(Elem(0), Ref(x)), Slot(Elem(0), t));
    UnfoldsNode(st.nodes, r, o);
    forall i | 0 <= i < |ts| ensures UnfoldsAt(st.nodes, Rekind(ks, Elem(0))[i], ts[i]) {
      assert UnfoldsAt(st.nodes, ks[i], o.kids[i]);
    }
  }

  /** The second vector that holds `x` gets what the elements become when they are visited again. */
  lemma SecondVisit(
    v: Visitor, m: Meaning, st: State, orig: set<Id>, cs: Classes, x: Id, w: Id, t: Tree, o: Tree, r: Ptr,
    marks: seq<bool>, d: nat)
    requires Implements(v, m) && v.Forwards() && LeavesBothAlone(m, cs) && Good(v, m, st, orig) && w in orig
    requires w !in st.visited && w in st.nodes && st.nodes[w] == Node(cs.vector, [Slot(Elem(0), Ref(x))]) && w != x
    requires Unfolds(st.nodes, Ref(x), t) && IsVector(o) && o != t && d > Height(o)
    requires Unfolds(st.nodes, r, o) && ElementsAgain(v, m, st, orig, r, o, marks) && Trees(Elements(o), marks)
    requires Done(st.visited, x) && st.visited[x].result == r
    ensures var (st', p) := Visit(v, st, Ref(w), d);
      !st'.bug && Unfolds(st'.nodes, p, Tree(cs.vector, Twice(m, Elements(o), marks)))
  {
    SecondCloned(v, st, cs, x, w, t, o, r);
    SecondKids(v, m, st, orig, w, o, r, marks, d - 1);
    AloneEnds(v, m, st, w, [Slot(Elem(0), t)], Elements(o), Twice(m, Elements(o), marks), d);
  }

  lemma SecondKids(
    v: Visitor, m: Meaning, st: State, orig: set<Id>, w: Id, o: Tree, r: Ptr, marks: seq<bool>, d: nat)
    requires Implements(v, m) && v.Forwards() && Good(v, m, st, orig) && w in orig && w !in st.visited && w in st.nodes
    requires IsVector(o) && d >= Height(o) && ElementsAgain(v, m, st, orig, r, o, marks) && Trees(Elements(o), marks)
    requires Cloned(v, st, w).kids == Rekind(st.nodes[r.id].kids, Elem(0))
    ensures ClonedBecomes(v, st, w, Twice(m, Elements(o), marks), d)
  {
    var ks, ts := Rekind(st.nodes[r.id].kids, Elem(0)), Elements(o);
    SecondBegun(v, m, st, orig, w, o, r, marks);
    forall i | 0 <= i < |ts| ensures ks[i].kind.Elem? && d >= Height(ts[i].at) { HeightOfKid(o.kids, i); }
    AgainOk(v, m, Begun(st, w), ks, ts, marks, d);
  }

  /** The plain rewrite of a vector that holds `t` alone. */
  lemma VectorPlain(m: Meaning, cs: Classes, t: Tree)
    requires LeavesBothAlone(m, cs) && Dissolves(m, t)
    ensures RewriteTree(m, VectorTree(cs, t)) == Tree(cs.vector, Elements(RewriteTree(m, t)))
  {
    var ts := [Slot(Elem(0), t)];
    AlonePlain(m, cs.vector, ts);
    assert Originals(m, ts)[1..] == [];
    var u := Elements(RewriteTree(m, t));
    assert Settle(Originals(m, ts)) == u + [];
  }

  /** Where a vector is returned, there is a run in which a second vector that holds the node meets the
      elements again, and what it returns; it is the plain rewrite exactly if they stay as they are. */
  lemma TwiceRewritten(v: Visitor, m: Meaning, cs: Classes, t: Tree, done: seq<bool>, d: nat) returns (c: Scene)
    requires Implements(v, m) && v.Forwards() && LeavesBothAlone(m, cs) && t.Tree? && |done| == |t.kids|
    requires KidsSound(v, m, t.kids) && d >= Need(m, RootTree(cs, t, done, true))
    requires StableAt(m, t) && Dissolves(m, t) && BuiltFor(v, m, t, Mix(m, t.kids, done))
    ensures SceneOk(c, cs, t, done, true)
    ensures Yields(v, c.g, c.root + 1, Ref(c.root), d, Tree(cs.record, TwiceRewrites(m, cs, t, done)))
    ensures RunIsPlain(v, m, c.g, c.root + 1, Ref(c.root), RootTree(cs, t, done, true), d) <==>
      !Shows(m, t, Mix(m, t.kids, done))
  {
    c := Stage(cs, t, done, true);
    TwiceRun(v, m, c, cs, t, done, d);
    TwiceShows(v, m, c, cs, t, done, d);
  }

  /** What the children of the root become: the chosen ones, `t`, and the vector. */
  ghost function TwiceRewrites(m: Meaning, cs: Classes, t: Tree, done: seq<bool>): seq<Slot<Tree>>
    requires t.Tree? && |done| == |t.kids| && StableAt(m, t) && Dissolves(m, t)
  {
    assert Outcome(m, t, Mix(m, t.kids, done)) == RewriteTree(m, t);
    Rewrites(m, Chosen(t.kids, done)) + [Slot(One, RewriteTree(m, t))]
      + [Slot(One, Tree(cs.vector, SecondElements(m, t, Mix(m, t.kids, done))))]
  }

  lemma TwiceRun(v: Visitor, m: Meaning, c: Scene, cs: Classes, t: Tree, done: seq<bool>, d: nat)
    requires Implements(v, m) && v.Forwards() && LeavesBothAlone(m, cs) && t.Tree? && |done| == |t.kids|
    requires SceneOk(c, cs, t, done, true) && KidsSound(v, m, t.kids) && d >= Need(m, RootTree(cs, t, done, true))
    requires StableAt(m, t) && Dissolves(m, t) && BuiltFor(v, m, t, Mix(m, t.kids, done))
    ensures Yields(v, c.g, c.root + 1, Ref(c.root), d, Tree(cs.record, TwiceRewrites(m, cs, t, done)))
  {
    RootNeeds(m, cs, t, done, true, d);
    TwiceKids(v, m, c, cs, t, done, d - 1);
    RootRun(v, m, c, cs, t, done, true, TwiceRewrites(m, cs, t, done), d);
  }

  lemma TwiceShows(v: Visitor, m: Meaning, c: Scene, cs: Classes, t: Tree, done: seq<bool>, d: nat)
    requires LeavesBothAlone(m, cs) && t.Tree? && |done| == |t.kids| && StableAt(m, t) && Dissolves(m, t)
    requires SceneOk(c, cs, t, done, true) && d >= Need(m, RootTree(cs, t, done, true))
    requires Yields(v, c.g, c.root + 1, Ref(c.root), d, Tree(cs.record, TwiceRewrites(m, cs, t, done)))
    ensures RunIsPlain(v, m, c.g, c.root + 1, Ref(c.root), RootTree(cs, t, done, true), d) <==>
      !Shows(m, t, Mix(m, t.kids, done))
  {
    RunPlainIff(v, m, c, cs, t, done, true, TwiceRewrites(m, cs, t, done), d);
    TwicePlainIff(m, cs, t, done);
  }

  /** These are the plain rewrites exactly if the vector gets the same elements. */
  lemma TwicePlainIff(m: Meaning, cs: Classes, t: Tree, done: seq<bool>)
    requires LeavesBothAlone(m, cs) && t.Tree? && |done| == |t.kids| && StableAt(m, t) && Dissolves(m, t)
    ensures TwiceRewrites(m, cs, t, done) == Rewrites(m, RootTree(cs, t, done, true).kids) <==>
      !Shows(m, t, Mix(m, t.kids, done))
  {
    var us, plain, n := TwiceRewrites(m, cs, t, done), Rewrites(m, RootTree(cs, t, done, true).kids),
      |Chosen(t.kids, done)|;
    assert Outcome(m, t, Mix(m, t.kids, done)) == RewriteTree(m, t);
    VectorPlain(m, cs, t);
    assert RootTree(cs, t, done, true).kids[n + 1].at == VectorTree(cs, t);
    assert plain[n + 1].at == Tree(cs.vector, Elements(RewriteTree(m, t)));
    assert us[n + 1].at == Tree(cs.vector, SecondElements(m, t, Mix(m, t.kids, done)));
    assert us[..n + 1] == plain[..n + 1];
    if us[n + 1] == plain[n + 1] {
      assert us == us[..n + 1] + [us[n + 1]] && plain == plain[..n + 1] + [plain[n + 1]];
    }
  }

  lemma TwiceKids(v: Visitor, m: Meaning, c: Scene, cs: Classes, t: Tree, done: seq<bool>, d: nat)
    requires Implements(v, m) && v.Forwards() && LeavesBothAlone(m, cs) && t.Tree? && |done| == |t.kids|
    requires SceneOk(c, cs, t, done, true) && KidsSound(v, m, t.kids) && d >= Need(m, t)
      && d > Height(RewriteTree(m, t))
    requires StableAt(m, t) && Dissolves(m, t) && BuiltFor(v, m, t, Mix(m, t.kids, done))
    ensures KidsBecome(v, c, TwiceRewrites(m, cs, t, done), d)
  {
    FirstKids(v, m, c, cs, t, done, true, d);
    var jks, jts, o := Chosen(c.ks, done), Chosen(t.kids, done), RewriteTree(m, t);
    var (st2, rs) := VisitAll(v, RootBegun(c), jks, d);
    assert Outcome(m, t, Mix(m, t.kids, done)) == RewriteTree(m, t);
    ThenVector(v, m, c, cs, t, done, st2, rs, d);
    var last := Tree(cs.vector, SecondElements(m, t, Mix(m, t.kids, done)));
    AppendTwo(v, RootBegun(c), jks, Ref(c.x), Ref(c.w), Rewrites(m, jts), o, last, d);
    assert c.g[c.root].kids == jks + [Slot(One, Ref(c.x))] + [Slot(One, Ref(c.w))];
  }

  /** Visited one after the other, `p` and `q` become `o` and `u`. */
  ghost predicate InTurn(v: Visitor, st: State, p: Ptr, q: Ptr, o: Tree, u: Tree, d: nat)
  {
    var (st1, r) := Visit(v, st, p, d);
    var (st2, s) := Visit(v, st1, q, d);
    Unfolds(st1.nodes, r, o) && !st2.bug && Unfolds(st2.nodes, s, u)
  }

  lemma AppendTwo(
    v: Visitor, st: State, ks: seq<Slot<Ptr>>, p: Ptr, q: Ptr, us: seq<Slot<Tree>>, o: Tree, u: Tree, d: nat)
    requires Allocated(st.nodes, st.next)
    requires (var (st1, rs) := VisitAll(v, st, ks, d);
      UnfoldsAll(st1.nodes, rs, us) && InTurn(v, st1, p, q, o, u, d))
    ensures (var (st', all) := VisitAll(v, st, ks + [Slot(One, p)] + [Slot(One, q)], d);
      !st'.bug && UnfoldsAll(st'.nodes, all, us + [Slot(One, o)] + [Slot(One, u)]))
  {
    AppendField(v, st, ks, p, us, o, d);
    AppendField(v, st, ks + [Slot(One, p)], q, us + [Slot(One, o)], u, d);
  }

  /** The node is visited, and then the vector that holds it. */
  lemma ThenVector(
    v: Visitor, m: Meaning, c: Scene, cs: Classes, t: Tree, done: seq<bool>, st2: State, rs: seq<Slot<Ptr>>, d: nat)
    requires Implements(v, m) && v.Forwards() && LeavesBothAlone(m, cs) && t.Tree? && |done| == |t.kids|
    requires SceneOk(c, cs, t, done, true) && KidsSound(v, m, t.kids) && d >= Need(m, t)
      && d > Height(RewriteTree(m, t))
    requires StableAt(m, t) && Dissolves(m, t) && BuiltFor(v, m, t, Mix(m, t.kids, done))
    requires Outcome(m, t, Mix(m, t.kids, done)) == RewriteTree(m, t) && FirstWell(v, m, c, t, done, st2, rs)
    ensures InTurn(v, st2, Ref(c.x), Ref(c.w), RewriteTree(m, t),
                   Tree(cs.vector, SecondElements(m, t, Mix(m, t.kids, done))), d)
  {
    var orig, seen := c.g.Keys, Mix(m, t.kids, done);
    ThenNode(v, m, c, cs, t, done, true, st2, rs, d);
    VisitFresh(v, m, st2, orig, c.x, t, d);
    VisitReturns(v, m, st2, orig, c.x, t, seen, d);
    ThenSecond(v, m, c, cs, t, st2, MarksFor(m, t, seen), d);
  }

  /** The vector is visited after the node. */
  lemma ThenSecond(
    v: Visitor, m: Meaning, c: Scene, cs: Classes, t: Tree, st2: State, marks: seq<bool>, d: nat)
    requires Implements(v, m) && v.Forwards() && LeavesBothAlone(m, cs) && Dissolves(m, t)
      && d > Height(RewriteTree(m, t))
    requires c.w in c.g && c.g[c.w] == Node(cs.vector, [Slot(Elem(0), Ref(c.x))]) && c.w != c.x && c.x != c.root
    requires SubGraph(c.g, st2.nodes) && Unfolds(st2.nodes, Ref(c.x), t)
      && VisitWell(v, m, st2, c.g.Keys, Ref(c.x), t, d)
    requires Tidy(st2, {c.w, c.root}) && c.x < st2.next && c.w !in st2.visited
    requires (var (st3, r) := Visit(v, st2, Ref(c.x), d);
      ElementsAgain(v, m, st3, c.g.Keys, r, RewriteTree(m, t), marks))
    requires Trees(RewriteTree(m, t).kids, marks)
    ensures InTurn(v, st2, Ref(c.x), Ref(c.w), RewriteTree(m, t),
                   Tree(cs.vector, Twice(m, Elements(RewriteTree(m, t)), marks)), d)
  {
    NotMet(v, st2, c.x, c.w, c.root, d);
    var (st3, r) := Visit(v, st2, Ref(c.x), d);
    UnfoldsGrows(st2.nodes, st3.nodes, Ref(c.x), t);
    SecondVisit(v, m, st3, c.g.Keys, cs, c.x, c.w, t, RewriteTree(m, t), r, marks, d);
  }

  lemma NotMet(v: Visitor, st: State, x: Id, w: Id, root: Id, d: nat)
    requires v.visitDagOnce && Tidy(st, {w, root}) && x < st.next && x !in {w, root} && w !in st.visited
    ensures w !in Visit(v, st, Ref(x), d).0.visited
  {
    VisitKeeps(v, st, Ref(x), d, {w, root});
  }

  // ---------- the exact condition ----------

  lemma FitIsPlain(v: Visitor, m: Meaning)
    requires Implements(v, m) && Overt(v, m) && forall t: Tree :: Fit(v, m, t)
    ensures EveryRunIsPlain(v, m)
  {
    forall g, next, root, t, d: nat ensures RunIsPlain(v, m, g, next, root, t, d) {
      AllFit(v, m, t);
      FitIsSound(v, m, t);
      if Closed(g, next) && Unfolds(g, root, t) {
        MemoisedIsPlain(v, m, g, next, root, t, d);
      }
    }
  }

  lemma UnfitIsNotPlain(v: Visitor, m: Meaning, cs: Classes, t: Tree)
    requires Implements(v, m) && v.Forwards() && LeavesBothAlone(m, cs) && Overt(v, m)
    requires t.Tree? && !Fit(v, m, t) && KidsFitBelow(v, m, t)
    ensures !EveryRunIsPlain(v, m)
  {
    KidsFit(v, m, t);
    if !StableAt(m, t) {
      var done: seq<bool> :| |done| == |t.kids| && Outcome(m, t, Mix(m, t.kids, done)) != RewriteTree(m, t);
      var c := TooLate(v, m, cs, t, done, Need(m, RootTree(cs, t, done, false)));
    } else {
      var done: seq<bool> :| Possible(v, t.kids, done) && !LastingFor(v, m, t, Mix(m, t.kids, done));
      assert OvertFor(v, m, t, Mix(m, t.kids, done));
      var c := TwiceRewritten(v, m, cs, t, done, Need(m, RootTree(cs, t, done, true)));
    }
  }

  /** For a visitor whose actions show and that leaves some classes alone: every run on every graph is
      the plain rewrite if and only if nowhere the outcome of a visit depends on which children have
      been forwarded, and vectors that are returned for elements can be visited again. */
  lemma {:induction false} HistoryFreeIff(v: Visitor, m: Meaning, cs: Classes)
    requires Implements(v, m) && v.Forwards() && LeavesBothAlone(m, cs) && Overt(v, m)
    ensures EveryRunIsPlain(v, m) <==> forall t: Tree :: Fit(v, m, t)
  {
    if forall t: Tree :: Fit(v, m, t) {
      FitIsPlain(v, m);
    } else {
      var t: Tree :| !Fit(v, m, t);
      var u := LowestUnfit(v, m, t);
      UnfitIsNotPlain(v, m, cs, u);
    }
  }
}
