/** A second visit of the elements of a vector that was returned before. */
module RewriteAgain {
  import opened IRGraph
  import opened Rewrite
  import opened RewriteState
  import opened RewriteIdle
  import opened RewriteSteps
  import opened RewriteProof
  import opened RewriteKeeps

  /** What stands in the place of an element `n`, whose children are not changed any more, when it is
      visited again. */
  ghost function Replacement(m: Meaning, k: Kind, n: Tree): seq<Slot<Tree>>
    requires n.Tree?
  {
    TreePiece(Slot(k, n), Outcome(m, n, Same(n.kids)))
  }

  /** What the elements `ts` become when they are visited again, if the callbacks do not keep the marked
      ones. */
  ghost function Twice(m: Meaning, ts: seq<Slot<Tree>>, marks: seq<bool>): seq<Slot<Tree>>
    requires |marks| == |ts| && Trees(ts, marks)
  {
    if ts == [] then []
    else
      (if marks[0] then Replacement(m, ts[0].kind, ts[0].at) else [ts[0]]) + Twice(m, ts[1..], marks[1..])
  }

  predicate Trees(ts: seq<Slot<Tree>>, marks: seq<bool>)
    requires |marks| == |ts|
  {
    forall i :: 0 <= i < |ts| && marks[i] ==> ts[i].at.Tree?
  }

  /** A new node that has not been visited, whose children are idle, and that the callbacks do not keep. */
  ghost predicate Changing(v: Visitor, m: Meaning, st: State, orig: set<Id>, p: Ptr, t: Tree)
  {
    && p.Ref? && t.Tree? && p.id in st.nodes && p.id !in st.visited && p.id !in orig && !Kept(m, t)
    && AllIdle(v, m, st, orig, st.nodes[p.id].kids, t.kids)
  }

  /** If it is a vector itself, the callbacks change it visibly. */
  ghost predicate Decided(m: Meaning, t: Tree)
    requires t.Tree?
  {
    IsVector(t) ==> Outcome(m, t, Same(t.kids)) != t
  }

  /** An element of a vector that was returned; `mark` says that the callbacks do not keep it. */
  ghost predicate Again(
    v: Visitor, m: Meaning, st: State, orig: set<Id>, s: Slot<Ptr>, t: Slot<Tree>, mark: bool)
  {
    && UnfoldsAt(st.nodes, s, t)
    && if mark then Changing(v, m, st, orig, s.at, t.at) && Decided(m, t.at) else Idle(v, m, st, orig, s.at, t.at)
  }

  ghost predicate AllAgain(
    v: Visitor, m: Meaning, st: State, orig: set<Id>, ks: seq<Slot<Ptr>>, ts: seq<Slot<Tree>>, marks: seq<bool>)
  {
    |ks| == |ts| == |marks|
    && forall i {:trigger Again(v, m, st, orig, ks[i], ts[i], marks[i])} ::
         0 <= i < |ts| ==> Again(v, m, st, orig, ks[i], ts[i], marks[i])
  }

  lemma AgainTrees(
    v: Visitor, m: Meaning, st: State, orig: set<Id>, ks: seq<Slot<Ptr>>, ts: seq<Slot<Tree>>, marks: seq<bool>)
    requires AllAgain(v, m, st, orig, ks, ts, marks)
    ensures Trees(ts, marks)
  {
    forall i | 0 <= i < |ts| && marks[i] ensures ts[i].at.Tree? {
      assert Again(v, m, st, orig, ks[i], ts[i], marks[i]);
    }
  }

  /** No marked node is there twice. */
  ghost predicate Apart(ks: seq<Slot<Ptr>>, marks: seq<bool>)
    requires |ks| == |marks|
  {
    forall i, j :: 0 <= i < j < |ks| && marks[i] && marks[j] ==> ks[i].at != ks[j].at
  }

  /** The marked nodes have not been visited. */
  ghost predicate Unvisited(visited: map<Id, VisitInfo>, ks: seq<Slot<Ptr>>, marks: seq<bool>)
    requires |ks| == |marks|
  {
    forall i :: 0 <= i < |ks| && marks[i] && ks[i].at.Ref? ==> ks[i].at.id !in visited
  }

  // ---------- what stays as it is ----------

  /** `y` is a node that the callbacks do not keep. */
  ghost predicate NotKept(m: Meaning, st: State, y: Id)
  {
    y !in st.visited && exists t: Tree :: t.Tree? && Unfolds(st.nodes, Ref(y), t) && !Kept(m, t)
  }

  ghost predicate NoneKept(m: Meaning, st: State, ys: set<Id>)
  {
    forall y :: y in ys ==> NotKept(m, st, y)
  }

  /** An idle node has nothing to do with those that the callbacks do not keep. */
  lemma {:induction false} IdleApart(v: Visitor, m: Meaning, st: State, ys: set<Id>, p: Ptr, t: Tree)
    requires v.Forwards() && Idle(v, m, st, {}, p, t) && Unfolds(st.nodes, p, t) && NoneKept(m, st, ys)
    ensures Idle(v, m, st, ys, p, t)
    decreases t
  {
    if !Fixed(st, p) {
      if p.id in ys {
        assert NotKept(m, st, p.id);
        var u: Tree :| u.Tree? && Unfolds(st.nodes, Ref(p.id), u) && !Kept(m, u);
        UnfoldsUnique(st.nodes, p, t, u);
      }
      forall i | 0 <= i < |t.kids| ensures Idle(v, m, st, ys, st.nodes[p.id].kids[i].at, t.kids[i].at) {
        IdleApart(v, m, st, ys, st.nodes[p.id].kids[i].at, t.kids[i].at);
      }
    }
  }

  lemma {:induction false} IdleNarrow(v: Visitor, m: Meaning, st: State, orig: set<Id>, p: Ptr, t: Tree)
    requires Idle(v, m, st, orig, p, t)
    ensures Idle(v, m, st, {}, p, t)
    decreases t
  {
    if !Fixed(st, p) {
      forall i | 0 <= i < |t.kids| ensures Idle(v, m, st, {}, st.nodes[p.id].kids[i].at, t.kids[i].at) {
        IdleNarrow(v, m, st, orig, st.nodes[p.id].kids[i].at, t.kids[i].at);
      }
    }
  }

  lemma AllIdleApart(v: Visitor, m: Meaning, st: State, ys: set<Id>, x: Id, t: Tree)
    requires v.Forwards() && NoneKept(m, st, ys) && t.Tree? && Unfolds(st.nodes, Ref(x), t)
    requires AllIdle(v, m, st, {}, st.nodes[x].kids, t.kids)
    ensures AllIdle(v, m, st, ys, st.nodes[x].kids, t.kids)
  {
    UnfoldsNode(st.nodes, Ref(x), t);
    var ks := st.nodes[x].kids;
    forall i | 0 <= i < |t.kids| ensures Idle(v, m, st, ys, ks[i].at, t.kids[i].at) {
      assert UnfoldsAt(st.nodes, ks[i], t.kids[i]) && Idle(v, m, st, {}, ks[i].at, t.kids[i].at);
      IdleApart(v, m, st, ys, ks[i].at, t.kids[i].at);
    }
  }

  lemma AllIdleNarrow(v: Visitor, m: Meaning, st: State, orig: set<Id>, ks: seq<Slot<Ptr>>, ts: seq<Slot<Tree>>)
    requires AllIdle(v, m, st, orig, ks, ts)
    ensures AllIdle(v, m, st, {}, ks, ts)
  {
    forall i | 0 <= i < |ts| ensures Idle(v, m, st, {}, ks[i].at, ts[i].at) {
      assert Idle(v, m, st, orig, ks[i].at, ts[i].at);
      IdleNarrow(v, m, st, orig, ks[i].at, ts[i].at);
    }
  }

  lemma AgainNarrow(
    v: Visitor, m: Meaning, st: State, orig: set<Id>, ks: seq<Slot<Ptr>>, ts: seq<Slot<Tree>>, marks: seq<bool>)
    requires AllAgain(v, m, st, orig, ks, ts, marks)
    ensures AllAgain(v, m, st, {}, ks, ts, marks)
  {
    forall i | 0 <= i < |ts| ensures Again(v, m, st, {}, ks[i], ts[i], marks[i]) {
      assert Again(v, m, st, orig, ks[i], ts[i], marks[i]);
      if marks[i] {
        AllIdleNarrow(v, m, st, orig, st.nodes[ks[i].at.id].kids, ts[i].at.kids);
      } else {
        IdleNarrow(v, m, st, orig, ks[i].at, ts[i].at);
      }
    }
  }

  /** An element of a returned vector stays one. */
  lemma AgainGrows(v: Visitor, m: Meaning, st: State, st': State, orig: set<Id>, s: Slot<Ptr>, t: Slot<Tree>,
                   mark: bool)
    requires Settles(orig, st, st') && Again(v, m, st, orig, s, t, mark)
    requires mark ==> s.at.id !in st'.visited
    ensures Again(v, m, st', orig, s, t, mark)
  {
    UnfoldsGrows(st.nodes, st'.nodes, s.at, t.at);
    if mark {
      AllIdleGrows(v, m, st, st', orig, st.nodes[s.at.id].kids, t.at.kids);
    } else {
      IdleGrows(v, m, st, st', orig, s.at, t.at);
    }
  }

  lemma AllAgainGrows(
    v: Visitor, m: Meaning, st: State, st': State, orig: set<Id>, ks: seq<Slot<Ptr>>, ts: seq<Slot<Tree>>,
    marks: seq<bool>)
    requires Settles(orig, st, st') && AllAgain(v, m, st, orig, ks, ts, marks) && Unvisited(st'.visited, ks, marks)
    ensures AllAgain(v, m, st', orig, ks, ts, marks)
  {
    forall i | 0 <= i < |ts| ensures Again(v, m, st', orig, ks[i], ts[i], marks[i]) {
      assert Again(v, m, st, orig, ks[i], ts[i], marks[i]);
      AgainGrows(v, m, st, st', orig, ks[i], ts[i], marks[i]);
    }
  }

  /** So it does if nodes that the callbacks do not keep are visited. */
  lemma AgainBeside(
    v: Visitor, m: Meaning, st: State, st': State, ys: set<Id>, s: Slot<Ptr>, t: Slot<Tree>, mark: bool)
    requires v.Forwards() && NoneKept(m, st, ys) && Settles(ys, st, st') && Again(v, m, st, {}, s, t, mark)
    requires mark ==> s.at.id !in st'.visited
    ensures Again(v, m, st', {}, s, t, mark)
  {
    UnfoldsGrows(st.nodes, st'.nodes, s.at, t.at);
    if mark {
      AllIdleApart(v, m, st, ys, s.at.id, t.at);
      AllIdleGrows(v, m, st, st', ys, st.nodes[s.at.id].kids, t.at.kids);
      AllIdleNarrow(v, m, st', ys, st.nodes[s.at.id].kids, t.at.kids);
    } else {
      IdleApart(v, m, st, ys, s.at, t.at);
      IdleGrows(v, m, st, st', ys, s.at, t.at);
      IdleNarrow(v, m, st', ys, s.at, t.at);
    }
  }

  // ---------- one element ----------

  /** The clone of a changing element has the children of the element. */
  lemma ChangingFinds(v: Visitor, m: Meaning, st: State, ys: set<Id>, x: Id, t: Tree, d: nat)
    requires Implements(v, m) && v.Forwards() && Basic(v, st) && d >= Height(t) && NoneKept(m, st, ys) && x in ys
    requires Unfolds(st.nodes, Ref(x), t) && Changing(v, m, st, {}, Ref(x), t)
    ensures Good(v, m, st, ys) && Finds(v, m, st, ys, x, t, Same(t.kids), d)
    ensures Cloned(v, st, x) == st.nodes[x] && AllIdle(v, m, st, ys, st.nodes[x].kids, t.kids)
  {
    var ks := st.nodes[x].kids;
    UnfoldsNode(st.nodes, Ref(x), t);
    ForwardIdle(v, m, st, {}, x, ks, t.kids);
    assert Cloned(v, st, x) == st.nodes[x];
    forall y | y in ys ensures y in st.nodes && y !in st.visited { assert NotKept(m, st, y); }
    AllIdleApart(v, m, st, ys, x, t);
    forall i | 0 <= i < |ks| ensures Expected(v, m, st, ys, ks[i], Same(t.kids)[i], d - 1, Height(t) - 1) {
      assert UnfoldsAt(st.nodes, ks[i], t.kids[i]) && Idle(v, m, st, ys, ks[i].at, t.kids[i].at);
      HeightOfKid(t.kids, i);
    }
  }

  lemma IdlePick(
    v: Visitor, m: Meaning, st: State, orig: set<Id>, ks: seq<Slot<Ptr>>, ts: seq<Slot<Tree>>, sel: seq<nat>)
    requires AllIdle(v, m, st, orig, ks, ts)
    ensures AllIdle(v, m, st, orig, Pick(ks, sel, NULL), Pick(ts, sel, NIL))
  {
    forall i | 0 <= i < |sel| ensures Idle(v, m, st, orig, Pick(ks, sel, NULL)[i].at, Pick(ts, sel, NIL)[i].at) {
      if sel[i] < |ks| { assert Idle(v, m, st, orig, ks[sel[i]].at, ts[sel[i]].at); }
    }
  }

  /** The visit of `x` has met no other node of `ys`. */
  ghost predicate MeetsOnly(ys: set<Id>, x: Id, visited: map<Id, VisitInfo>, visited': map<Id, VisitInfo>)
  {
    forall y :: y in visited' && y !in visited && y in ys ==> y == x
  }

  /** The children of its clone are idle. */
  lemma ChangingOpens(v: Visitor, m: Meaning, st: State, ys: set<Id>, x: Id, t: Tree, go: PreAction)
    requires v.Forwards() && Good(v, m, st, ys) && t.Tree? && Enterable(v, st, ys, x, t) && x in st.nodes && go.Go?
    requires Cloned(v, st, x) == st.nodes[x] && AllIdle(v, m, st, ys, st.nodes[x].kids, t.kids)
    ensures (var (st1, f) := Open(v, st, x, go);
      && Good(v, m, st1, ys) && MeetsOnly(ys, x, st.visited, st1.visited)
      && UnfoldsAll(st1.nodes, f.copy.kids, Pick(t.kids, go.sel, NIL))
      && AllIdle(v, m, st1, ys, f.copy.kids, Pick(t.kids, go.sel, NIL)))
  {
    var (st1, f) := Open(v, st, x, go);
    var ks, ts := st.nodes[x].kids, t.kids;
    OpenMid(v, m, st, ys, x, t, go);
    OpenGood(v, m, st, ys, x, t, go);
    MidSettles(v, ys, st, st1, x, f);
    UnfoldsNode(st.nodes, Ref(x), t);
    UnfoldsAllGrows(st.nodes, st1.nodes, ks, ts);
    UnfoldsPick(st1.nodes, ks, ts, go.sel);
    AllIdleGrows(v, m, st, st1, ys, ks, ts);
    IdlePick(v, m, st1, ys, ks, ts, go.sel);
  }

  /** They return as they are. */
  lemma ChangingKids(v: Visitor, m: Meaning, st: State, ys: set<Id>, x: Id, t: Tree, go: PreAction, d: nat)
    requires Implements(v, m) && v.Forwards() && Good(v, m, st, ys) && t.Tree? && Enterable(v, st, ys, x, t)
    requires Cloned(v, st, x) == st.nodes[x] && AllIdle(v, m, st, ys, st.nodes[x].kids, t.kids)
    requires go.Go? && d >= Height(t)
    ensures MeetsOnly(ys, x, st.visited, Revisited(v, st, x, go, d).0.visited)
  {
    ChangingOpens(v, m, st, ys, x, t, go);
    var (st1, f) := Open(v, st, x, go);
    PickedHeights(t, go.sel, d);
    AllIdleOk(v, m, st1, ys, f.copy.kids, Pick(t.kids, go.sel, NIL), d - 1);
  }

  lemma PickedHeights(t: Tree, sel: seq<nat>, d: nat)
    requires t.Tree? && d >= Height(t)
    ensures forall i :: 0 <= i < |sel| ==> d - 1 >= Height(Pick(t.kids, sel, NIL)[i].at)
  {
    forall i | 0 <= i < |sel| ensures d - 1 >= Height(Pick(t.kids, sel, NIL)[i].at) {
      if sel[i] < |t.kids| { HeightOfKid(t.kids, sel[i]); }
    }
  }

  /** When its visit is about to end, it has met no other node of `ys`. */
  lemma ChangingMeets(v: Visitor, m: Meaning, st: State, ys: set<Id>, x: Id, t: Tree, d: nat)
    requires Implements(v, m) && v.Forwards() && Good(v, m, st, ys) && t.Tree? && Enterable(v, st, ys, x, t)
    requires Cloned(v, st, x) == st.nodes[x] && AllIdle(v, m, st, ys, st.nodes[x].kids, t.kids)
    requires d > 0 && d >= Height(t) && Asked(v, st, x).Go?
    ensures MeetsOnly(ys, x, st.visited, Visited(v, st, x, d).0.visited)
  {
    var go := Asked(v, st, x);
    if go.prune {
      ChangingOpens(v, m, st, ys, x, t, go);
    } else {
      ChangingKids(v, m, st, ys, x, t, go, d);
    }
  }

  /** A changing element is rewritten as any node with these children is, and the others are not met. */
  lemma ChangingOk(v: Visitor, m: Meaning, st: State, ys: set<Id>, s: Slot<Ptr>, t: Tree, d: nat)
    requires Implements(v, m) && v.Forwards() && Basic(v, st) && d >= Height(t) && s.kind.Elem? && s.at.Ref?
    requires NoneKept(m, st, ys) && s.at.id in ys
    requires Unfolds(st.nodes, s.at, t) && Changing(v, m, st, {}, s.at, t) && Decided(m, t)
    ensures var (st', r) := Visit(v, st, s.at, d);
      && Basic(v, st') && Extends(v, ys, st, st') && MeetsOnly(ys, s.at.id, st.visited, st'.visited)
      && UnfoldsAll(st'.nodes, Piece(st'.nodes, s, r), Replacement(m, s.kind, t))
  {
    var x, seen := s.at.id, Same(t.kids);
    ChangingFinds(v, m, st, ys, x, t, d);
    AskedMeans(v, m, st, ys, x, t, seen, d);
    if Asked(v, st, x).Remove? {
      ChangingStops(v, m, st, ys, x, t, d);
    } else {
      ChangingGoes(v, m, st, ys, x, t, d);
    }
    var (st', r) := Visit(v, st, s.at, d);
    UnfoldsGrows(st.nodes, st'.nodes, s.at, t);
    ChangedPiece(st'.nodes, s, r, t, Outcome(m, t, seen));
  }

  /** What is known when `x` has been visited again. */
  ghost predicate ChangedWell(v: Visitor, m: Meaning, st: State, ys: set<Id>, x: Id, t: Tree, d: nat)
    requires t.Tree?
  {
    var (st', r) := Visit(v, st, Ref(x), d);
    && Basic(v, st') && Extends(v, ys, st, st') && MeetsOnly(ys, x, st.visited, st'.visited)
    && Unfolds(st'.nodes, r, Outcome(m, t, Same(t.kids)))
  }

  lemma ChangingStops(v: Visitor, m: Meaning, st: State, ys: set<Id>, x: Id, t: Tree, d: nat)
    requires v.Forwards() && t.Tree? && Good(v, m, st, ys) && Finds(v, m, st, ys, x, t, Same(t.kids), d)
    requires x !in st.visited
    requires Asked(v, st, x).Remove? && Outcome(m, t, Same(t.kids)) == Nil
    ensures ChangedWell(v, m, st, ys, x, t, d)
  {
    VisitStops(v, st, x, d);
    var st' := Visit(v, st, Ref(x), d).0;
    forall y: Id | Done(st'.visited, y) ensures Fixed(st', st'.visited[y].result) {
      if y != x { assert Fixed(st, st.visited[y].result); }
    }
  }

  lemma ChangingGoes(v: Visitor, m: Meaning, st: State, ys: set<Id>, x: Id, t: Tree, d: nat)
    requires Implements(v, m) && v.Forwards() && t.Tree? && Good(v, m, st, ys)
    requires Finds(v, m, st, ys, x, t, Same(t.kids), d)
    requires Cloned(v, st, x) == st.nodes[x] && AllIdle(v, m, st, ys, st.nodes[x].kids, t.kids) && d >= Height(t)
    requires Asked(v, st, x).Go? && NoneKept(m, st, ys)
    ensures ChangedWell(v, m, st, ys, x, t, d)
  {
    VisitedOk(v, m, st, ys, x, t, Same(t.kids), d);
    ChangingMeets(v, m, st, ys, x, t, d);
    VisitSteps(v, st, x, d);
    var (st3, f, final) := Visited(v, st, x, d);
    ChangingEnds(v, m, st, st3, ys, x, t, Same(t.kids), f, final);
  }

  lemma ChangingEnds(
    v: Visitor, m: Meaning, st: State, st3: State, ys: set<Id>, x: Id, t: Tree, seen: seq<Slot<Part>>, f: Frame,
    final: Ptr)
    requires v.Forwards() && Good(v, m, st, ys) && Enterable(v, st, ys, x, t) && t.Tree?
    requires Good(v, m, st3, ys) && Mid(v, ys, st, st3, x, f) && MeetsOnly(ys, x, st.visited, st3.visited)
    requires FinalOk(v, m, st3, ys, x, t, Outcome(m, t, seen), LastingFor(v, m, t, seen), f, final)
    requires f.standIn in st3.nodes && (final.Ref? ==> final.id in st3.nodes)
    ensures var (st', r) := Close(st3, x, f, final);
      && Basic(v, st') && Extends(v, ys, st, st') && MeetsOnly(ys, x, st.visited, st'.visited)
      && Unfolds(st'.nodes, r, Outcome(m, t, seen))
  {
    var o, lasting := Outcome(m, t, seen), LastingFor(v, m, t, seen);
    CloseUnfolds(v, m, ys, st, st3, x, t, o, lasting, f, final);
    CloseExtends(v, m, st, st3, ys, x, t, f, final);
    CloseFixed(v, m, st, st3, ys, x, t, o, lasting, f, final);
    CloseKeeps(v, st, st3, ys, x, f, final);
    assert f.standIn !in ys;
  }

  /** Pointers and trees agree on what the result `r` for an element puts in its place. */
  lemma ChangedPiece(g: Nodes, s: Slot<Ptr>, r: Ptr, t: Tree, o: Tree)
    requires Unfolds(g, s.at, t) && Unfolds(g, r, o) && (IsVector(t) ==> o != t) && s.kind.Elem? && t.Tree?
    ensures UnfoldsAll(g, Piece(g, s, r), TreePiece(Slot(s.kind, t), o))
  {
    if r == s.at { UnfoldsUnique(g, r, t, o); }
    if IsVector(o) {
      UnfoldsNode(g, r, o);
      forall i | 0 <= i < |o.kids| ensures UnfoldsAt(g, Piece(g, s, r)[i], TreePiece(Slot(s.kind, t), o)[i]) {
        assert UnfoldsAt(g, g[r.id].kids[i], o.kids[i]);
      }
    } else if o.Tree? {
      UnfoldsOne(g, Slot(s.kind, r), Slot(s.kind, o));
    }
  }

  // ---------- all elements ----------

  /** The ids of the marked elements. */
  ghost function MarkedIds(ks: seq<Slot<Ptr>>, marks: seq<bool>): (ys: set<Id>)
    requires |ks| == |marks|
  {
    set i | 0 <= i < |ks| && marks[i] && ks[i].at.Ref? :: ks[i].at.id
  }

  lemma MarkedNotKept(
    v: Visitor, m: Meaning, st: State, ks: seq<Slot<Ptr>>, ts: seq<Slot<Tree>>, marks: seq<bool>)
    requires AllAgain(v, m, st, {}, ks, ts, marks)
    ensures NoneKept(m, st, MarkedIds(ks, marks))
  {
    forall y | y in MarkedIds(ks, marks) ensures NotKept(m, st, y) {
      var i :| 0 <= i < |ks| && marks[i] && ks[i].at.Ref? && y == ks[i].at.id;
      assert Again(v, m, st, {}, ks[i], ts[i], marks[i]);
    }
  }

  /** The first element, and what is then known of the others. */
  ghost predicate HeadWell(
    v: Visitor, m: Meaning, st: State, ks: seq<Slot<Ptr>>, ts: seq<Slot<Tree>>, marks: seq<bool>, d: nat)
    requires |ks| == |ts| == |marks| > 0 && (marks[0] ==> ts[0].at.Tree?)
  {
    var (st1, r) := Visit(v, st, ks[0].at, d);
    && UnfoldsAll(st1.nodes, Piece(st1.nodes, ks[0], r),
                  if marks[0] then Replacement(m, ts[0].kind, ts[0].at) else [ts[0]])
    && Basic(v, st1) && AllAgain(v, m, st1, {}, ks[1..], ts[1..], marks[1..])
  }

  lemma AgainFirst(
    v: Visitor, m: Meaning, st: State, ks: seq<Slot<Ptr>>, ts: seq<Slot<Tree>>, marks: seq<bool>, d: nat)
    requires Implements(v, m) && v.Forwards() && Basic(v, st) && AllAgain(v, m, st, {}, ks, ts, marks) && ks != []
    requires Apart(ks, marks) && ks[0].kind.Elem? && d >= Height(ts[0].at)
    ensures (marks[0] ==> ts[0].at.Tree?) && HeadWell(v, m, st, ks, ts, marks, d)
  {
    var ys := MarkedIds(ks, marks);
    var (st1, r) := Visit(v, st, ks[0].at, d);
    MarkedNotKept(v, m, st, ks, ts, marks);
    assert Again(v, m, st, {}, ks[0], ts[0], marks[0]);
    if marks[0] {
      ChangingOk(v, m, st, ys, ks[0], ts[0].at, d);
    } else {
      IdleApart(v, m, st, ys, ks[0].at, ts[0].at);
      IdleOk(v, m, st, ys, ks[0].at, ts[0].at, d);
      UnfoldsGrows(st.nodes, st1.nodes, ks[0].at, ts[0].at);
      UnfoldsOne(st1.nodes, ks[0], ts[0]);
      assert Piece(st1.nodes, ks[0], r) == [ks[0]];
    }
    ExtendsSettles(v, ys, st, st1);
    AgainRest(v, m, st, st1, ks, ts, marks);
  }

  lemma AgainRest(
    v: Visitor, m: Meaning, st: State, st1: State, ks: seq<Slot<Ptr>>, ts: seq<Slot<Tree>>, marks: seq<bool>)
    requires v.Forwards() && AllAgain(v, m, st, {}, ks, ts, marks) && ks != [] && Apart(ks, marks)
    requires Settles(MarkedIds(ks, marks), st, st1) && NoneKept(m, st, MarkedIds(ks, marks))
    requires forall y :: y in st1.visited && y !in st.visited && y in MarkedIds(ks, marks) ==>
      marks[0] && Ref(y) == ks[0].at
    ensures AllAgain(v, m, st1, {}, ks[1..], ts[1..], marks[1..])
  {
    forall i | 0 <= i < |ks| - 1 ensures Again(v, m, st1, {}, ks[1..][i], ts[1..][i], marks[1..][i]) {
      var j := i + 1;
      assert Again(v, m, st, {}, ks[j], ts[j], marks[j]);
      if marks[j] { assert ks[j].at.id in MarkedIds(ks, marks); }
      AgainBeside(v, m, st, st1, MarkedIds(ks, marks), ks[j], ts[j], marks[j]);
    }
  }

  /** What the elements of a returned vector become when they are visited again. */
  lemma {:induction false} AgainOk(
    v: Visitor, m: Meaning, st: State, ks: seq<Slot<Ptr>>, ts: seq<Slot<Tree>>, marks: seq<bool>, d: nat)
    requires Implements(v, m) && v.Forwards() && Basic(v, st) && AllAgain(v, m, st, {}, ks, ts, marks)
    requires Apart(ks, marks) && forall i :: 0 <= i < |ts| ==> ks[i].kind.Elem? && d >= Height(ts[i].at)
    ensures Trees(ts, marks)
    ensures var (st', out) := VisitAll(v, st, ks, d);
      !st'.bug && UnfoldsAll(st'.nodes, out, Twice(m, ts, marks))
    decreases |ks|
  {
    AgainTrees(v, m, st, {}, ks, ts, marks);
    if ks != [] {
      AgainFirst(v, m, st, ks, ts, marks, d);
      var (st1, r) := Visit(v, st, ks[0].at, d);
      AgainOk(v, m, st1, ks[1..], ts[1..], marks[1..], d);
      var (st2, out) := VisitAll(v, st1, ks[1..], d);
      VisitAllAdds(v, st1, ks[1..], d);
      var one := if marks[0] then Replacement(m, ts[0].kind, ts[0].at) else [ts[0]];
      UnfoldsAllGrows(st1.nodes, st2.nodes, Piece(st1.nodes, ks[0], r), one);
      UnfoldsAppend(st2.nodes, Piece(st1.nodes, ks[0], r), one, out, Twice(m, ts[1..], marks[1..]));
    }
  }
}
