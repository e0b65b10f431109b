/** The memoised rewrite of a shared graph agrees with the plain rewrite of the tree. */
module RewriteProof {
  import opened IRGraph
  import opened Rewrite
  import opened RewriteState
  import opened RewriteIdle
  import opened RewriteSteps
  import opened RewriteRoom

  // ---------- postorder ----------

  /** Postorder's result unfolds to the finished tree, and is new or one of the clone's children. */
  lemma AppliedFinal(v: Visitor, m: Meaning, st2: State, n: Node, t: Tree, f: Frame, ks: seq<Slot<Tree>>)
    requires Implements(v, m) && t.Tree? && n.tag == t.tag && UnfoldsAll(st2.nodes, n.kids, t.kids)
    requires UnfoldsAll(st2.nodes, f.copy.kids, ks)
    requires f.clone !in st2.nodes && f.clone < st2.next && Allocated(st2.nodes, st2.next)
    ensures v.post(st2.nodes, n, f.copy) == m.post(t, Tree(f.copy.tag, ks))
    ensures var act := v.post(st2.nodes, n, f.copy);
      var (st3, final) := Postordered(st2, f, act);
      && Unfolds(st3.nodes, final, Finished(m, t, f.copy.tag, ks)) && SubGraph(st2.nodes, st3.nodes)
      && Allocated(st3.nodes, st3.next) && st2.next <= st3.next && f.clone in st3.nodes
      && (forall y :: y in st3.nodes ==> y in st2.nodes || y >= st2.next || y == f.clone)
      && (act.Build? ==> final.Ref? && final.id !in st2.nodes && final.id in st3.nodes)
  {
    assert Tree(t.tag, t.kids) == t;
    var act := v.post(st2.nodes, n, f.copy);
    var (st3, final) := Postordered(st2, f, act);
    if act.Build? {
      BuiltFinal(st2, f, ks, act);
    } else {
      UnfoldsAllGrows(st2.nodes, st3.nodes, f.copy.kids, ks);
      if act.Take? && act.i < |ks| { assert UnfoldsAt(st3.nodes, f.copy.kids[act.i], ks[act.i]); }
    }
  }

  lemma BuiltFinal(st2: State, f: Frame, ks: seq<Slot<Tree>>, act: PostAction)
    requires act.Build? && UnfoldsAll(st2.nodes, f.copy.kids, ks)
    requires f.clone !in st2.nodes && f.clone < st2.next && Allocated(st2.nodes, st2.next)
    ensures var (st3, final) := Postordered(st2, f, act);
      && Unfolds(st3.nodes, final, Tree(act.tag, GrowAll(act.fields, ks))) && SubGraph(st2.nodes, st3.nodes)
      && final.Ref? && final.id !in st2.nodes && final.id in st3.nodes && f.clone in st3.nodes
      && st3.nodes[final.id].kids == PlantAll(st2.nodes, st2.next, act.fields, f.copy.kids).value
      && Allocated(st3.nodes, st3.next) && st2.next <= st3.next
      && SubGraph(PlantAll(st2.nodes, st2.next, act.fields, f.copy.kids).nodes, st3.nodes)
      && forall y :: y in st3.nodes ==> y in st2.nodes || y >= st2.next || y == f.clone
  {
    var (st3, final) := Postordered(st2, f, act);
    PlantAllOk(st2.nodes, st2.next, act.fields, f.copy.kids, ks);
    var r := PlantAll(st2.nodes, st2.next, act.fields, f.copy.kids);
    assert SubGraph(r.nodes, st3.nodes);
    UnfoldsAllGrows(r.nodes, st3.nodes, r.value, GrowAll(act.fields, ks));
    UnfoldsNode(st3.nodes, final, Tree(act.tag, GrowAll(act.fields, ks)));
  }

  /** Where the callbacks keep its new elements, a vector that postorder returns can be visited again. */
  lemma AppliedIdle(
    v: Visitor, m: Meaning, st2: State, orig: set<Id>, t: Tree, f: Frame, ks: seq<Slot<Tree>>, act: PostAction)
    requires Good(v, m, st2, orig) && UnfoldsAll(st2.nodes, f.copy.kids, ks)
      && AllIdle(v, m, st2, orig, f.copy.kids, ks)
    requires f.clone !in st2.nodes && f.clone < st2.next && t.Tree? && act == m.post(t, Tree(f.copy.tag, ks))
    requires LastingPost(v, m, act, ks)
    ensures (var (st3, final) := Postordered(st2, f, act);
      ElementsIdle(v, m, st3, orig, final, Finished(m, t, f.copy.tag, ks)))
  {
    var (st3, final) := Postordered(st2, f, act);
    if act.Build? && act.tag.vector {
      BuiltFinal(st2, f, ks, act);
      PlantAllIdle(v, m, st2, orig, act.fields, f.copy.kids, ks);
      PlantAllOk(st2.nodes, st2.next, act.fields, f.copy.kids, ks);
      var r := PlantAll(st2.nodes, st2.next, act.fields, f.copy.kids);
      var st1 := st2.(nodes := r.nodes, next := r.next);
      IdleAllocates(v, m, st1, st3.nodes, st3.next, orig);
      AllIdleGrows(v, m, st1, st3, orig, r.value, GrowAll(act.fields, ks));
    }
  }

  /** The children of the clone have been visited. */
  ghost predicate KidsOk(
    v: Visitor, m: Meaning, st: State, orig: set<Id>, ks: seq<Slot<Ptr>>, ts: seq<Slot<Tree>>)
  {
    UnfoldsAll(st.nodes, ks, ts) && (v.visitDagOnce ==> AllIdle(v, m, st, orig, ks, ts))
  }

  /** The clone of a node that the callbacks leave alone is like the node. */
  ghost predicate UntouchedClone(v: Visitor, m: Meaning, n: Node, t: Tree, go: PreAction, f: Frame, ks: seq<Slot<Tree>>)
    requires t.Tree?
  {
    Untouched(v, m, t) ==> go == m.pre(t, t) && f.copy == n && ks == t.kids && f.standIn == f.clone
  }

  lemma ApplyOk(
    v: Visitor, m: Meaning, st: State, st2: State, orig: set<Id>, x: Id, t: Tree, seen: seq<Slot<Part>>, go: PreAction,
    f: Frame)
    requires Implements(v, m) && Good(v, m, st, orig) && Enterable(v, st, orig, x, t)
    requires go.Go? && !go.prune && f.copy.tag == go.tag && go == m.pre(t, Tree(t.tag, Nows(seen)))
    requires Good(v, m, st2, orig) && Mid(v, orig, st, st2, x, f) && f.clone !in st2.nodes && f.standIn < st2.next
    requires f.standIn != f.clone ==> f.standIn in st2.nodes
    requires (var ks := Settle(Pick(seen, go.sel, NONE));
      KidsOk(v, m, st2, orig, f.copy.kids, ks) && UntouchedClone(v, m, st.nodes[x], t, go, f, ks))
    ensures var (st3, final) := Postordered(st2, f, v.post(st2.nodes, st.nodes[x], f.copy));
      && Good(v, m, st3, orig) && Mid(v, orig, st, st3, x, f)
      && FinalOk(v, m, st3, orig, x, t, Outcome(m, t, seen), LastingFor(v, m, t, seen), f, final)
      && f.standIn in st3.nodes && (final.Ref? ==> final.id in st3.nodes)
  {
    var ks := Settle(Pick(seen, go.sel, NONE));
    UnfoldsNode(st.nodes, Ref(x), t);
    UnfoldsAllGrows(st.nodes, st2.nodes, st.nodes[x].kids, t.kids);
    AppliedFinal(v, m, st2, st.nodes[x], t, f, ks);
    var act := v.post(st2.nodes, st.nodes[x], f.copy);
    var (st3, final) := Postordered(st2, f, act);
    GoodAllocates(v, m, st2, orig, st3.nodes, st3.next);
    assert st3 == st2.(nodes := st3.nodes, next := st3.next);
    MidAllocates(v, orig, st, st2, st3, x, f);
    if act.Take? && act.i < |ks| {
      assert UnfoldsAt(st2.nodes, f.copy.kids[act.i], ks[act.i]);
      TakenOk(st2, final, ks[act.i].at);
      if v.visitDagOnce { assert Idle(v, m, st2, orig, final, ks[act.i].at); }
    }
    if v.visitDagOnce && LastingFor(v, m, t, seen) { AppliedIdle(v, m, st2, orig, t, f, ks, act); }
    if Untouched(v, m, t) { AppliedUntouched(v, m, st2, st.nodes[x], t, f); }
  }

  lemma TakenOk(st: State, p: Ptr, u: Tree)
    requires Unfolds(st.nodes, p, u)
    ensures p.Ref? ==> p.id in st.nodes
  {}

  /** Where the callbacks change nothing, the clone ends as the node it was made from. */
  lemma AppliedUntouched(v: Visitor, m: Meaning, st2: State, n: Node, t: Tree, f: Frame)
    requires Implements(v, m) && t.Tree? && Untouched(v, m, t) && n.tag == t.tag && f.copy == n
    requires UnfoldsAll(st2.nodes, n.kids, t.kids) && !m.pre(t, t).prune
    ensures var (st3, final) := Postordered(st2, f, v.post(st2.nodes, n, f.copy));
      st3.nodes == st2.nodes[f.clone := n] && final == Ref(f.clone)
  {
    assert Tree(t.tag, t.kids) == t;
    assert v.post(st2.nodes, n, f.copy) == m.post(t, t);
    IdlePlanted(st2, f, t.kids);
  }

  /** A pruned visit. */
  lemma PruneOk(
    v: Visitor, m: Meaning, st: State, orig: set<Id>, x: Id, t: Tree, seen: seq<Slot<Part>>, go: PreAction, d: nat)
    requires Implements(v, m) && Good(v, m, st, orig) && Enterable(v, st, orig, x, t)
    requires go.Go? && go.prune && go == m.pre(t, Tree(t.tag, Nows(seen)))
    requires UnfoldsAll(st.nodes, Cloned(v, st, x).kids, Nows(seen))
    requires Untouched(v, m, t) ==> Cloned(v, st, x) == st.nodes[x] && go == m.pre(t, t)
    ensures var (st1, f) := Open(v, st, x, go);
      var st3 := Commit(st1, f, f.copy);
      && Good(v, m, st3, orig) && Mid(v, orig, st, st3, x, f) && f.standIn in st3.nodes
      && FinalOk(v, m, st3, orig, x, t, Outcome(m, t, seen), LastingFor(v, m, t, seen), f, Ref(f.standIn))
  {
    var (st1, f) := Open(v, st, x, go);
    var st3 := Commit(st1, f, f.copy);
    OpenMid(v, m, st, orig, x, t, go);
    OpenGood(v, m, st, orig, x, t, go);
    GoodAllocates(v, m, st1, orig, st3.nodes, st3.next);
    assert st3 == st1.(nodes := st3.nodes, next := st3.next);
    var us := Nows(Pick(seen, go.sel, NONE));
    PickNows(seen, go.sel);
    UnfoldsPick(st.nodes, Cloned(v, st, x).kids, Nows(seen), go.sel);
    UnfoldsAllGrows(st.nodes, st3.nodes, f.copy.kids, us);
    assert st3.nodes[f.standIn] == f.copy;
    UnfoldsNode(st3.nodes, Ref(f.standIn), Tree(go.tag, us));
    if Untouched(v, m, t) {
      UnfoldsNode(st.nodes, Ref(x), t);
      PickIota(st.nodes[x].kids, NULL);
    }
  }

  lemma PickNows(ps: seq<Slot<Part>>, sel: seq<nat>)
    ensures Nows(Pick(ps, sel, NONE)) == Pick(Nows(ps), sel, NIL)
  {}

  // ---------- the end of a visit ----------

  lemma CloseOk(
    v: Visitor, m: Meaning, st: State, st3: State, orig: set<Id>, x: Id, t: Tree, lasting: bool, f: Frame, final: Ptr)
    requires Good(v, m, st, orig) && Enterable(v, st, orig, x, t)
    requires Good(v, m, st3, orig) && Mid(v, orig, st, st3, x, f)
    requires FinalOk(v, m, st3, orig, x, t, RewriteTree(m, t), lasting, f, final) && (Lasting(v, m, t) ==> lasting)
    requires f.standIn in st3.nodes && (final.Ref? ==> final.id in st3.nodes)
    ensures var (st', r) := Close(st3, x, f, final);
      Good(v, m, st', orig) && Extends(v, orig, st, st') && ResultOk(v, m, st', orig, r, Ref(x), t)
  {
    var (st', r) := Close(st3, x, f, final);
    CloseUnfolds(v, m, orig, st, st3, x, t, RewriteTree(m, t), lasting, f, final);
    UnfoldsGrows(st.nodes, st3.nodes, Ref(x), t);
    CloseExtends(v, m, st, st3, orig, x, t, f, final);
    if v.visitDagOnce {
      CloseFixed(v, m, st, st3, orig, x, t, RewriteTree(m, t), lasting, f, final);
      CloseSettles(v, m, st, st3, orig, x, f, final);
      if lasting { CloseElements(v, m, st3, st', orig, x, f, RewriteTree(m, t), final); }
      assert ResultOk(v, m, st', orig, r, Ref(x), t);
      forall y: Id | y in orig && Done(st'.visited, y) ensures MemoOk(v, m, st', orig, y) {
        if y == x {
          assert Unfolds(st'.nodes, Ref(x), t) && ResultOk(v, m, st', orig, st'.visited[x].result, Ref(x), t);
        } else {
          MemoOkGrows(v, m, st3, st', orig, y);
        }
      }
    }
  }

  /** Whatever it unfolds to, the result is the one that was finished. */
  lemma CloseUnfolds(
    v: Visitor, m: Meaning, orig: set<Id>, st: State, st3: State, x: Id, t: Tree, o: Tree, lasting: bool, f: Frame,
    final: Ptr)
    requires Mid(v, orig, st, st3, x, f) && FinalOk(v, m, st3, orig, x, t, o, lasting, f, final) && x in st.nodes
    requires f.standIn in st3.nodes && (final.Ref? ==> final.id in st3.nodes)
    ensures var (st', r) := Close(st3, x, f, final);
      st'.nodes == st3.nodes && Unfolds(st3.nodes, r, o)
  {
    SameNode(st3.nodes, final, f.standIn, o);
    SameNode(st3.nodes, Settled(st3.nodes, f.standIn, final), x, o);
  }

  lemma SameNode(g: Nodes, p: Ptr, y: Id, u: Tree)
    requires Unfolds(g, p, u) && y in g
    ensures !Differs(g, y, p) ==> Unfolds(g, Ref(y), u)
  {
  }

  /** What is returned for a vector has the elements that postorder left. */
  lemma CloseElements(v: Visitor, m: Meaning, st3: State, st': State, orig: set<Id>, x: Id, f: Frame, o: Tree,
                      final: Ptr)
    requires x in st3.visited && (f.standIn != f.clone ==> f.standIn in st3.visited) && x in st3.nodes
    requires (var (st4, r) := Close(st3, x, f, final); st' == st4) && f.standIn in st3.nodes
    requires Settles(orig, st3, st') && ElementsIdle(v, m, st3, orig, final, o)
    ensures ElementsIdle(v, m, st', orig, Close(st3, x, f, final).1, o)
  {
    var (_, r) := Close(st3, x, f, final);
    if IsVector(o) {
      assert r.Ref? && r.id in st3.nodes && st3.nodes[r.id].kids == st3.nodes[final.id].kids;
      AllIdleGrows(v, m, st3, st', orig, st3.nodes[final.id].kids, o.kids);
    }
  }

  /** What one `finish` does to the table. */
  lemma FinishEntries(nodes: Nodes, visited: map<Id, VisitInfo>, x: Id, final: Ptr)
    requires x in visited
    ensures FinishedAt(nodes, visited, x, final, Finish(nodes, visited, x, final))
  {
  }

  /** What the end of a visit does to the table. */
  lemma ClosedEntries(st3: State, x: Id, f: Frame, settled: Ptr)
    requires x in st3.visited && (f.standIn != f.clone ==> f.standIn in st3.visited)
    ensures var first := Finish(st3.nodes, st3.visited, x, settled);
      var last := if f.standIn != f.clone then Finish(st3.nodes, first, f.standIn, settled) else first;
      && FinishedAt(st3.nodes, st3.visited, x, settled, first)
      && (f.standIn != f.clone ==> FinishedAt(st3.nodes, first, f.standIn, settled, last))
  {
    var first := Finish(st3.nodes, st3.visited, x, settled);
    FinishEntries(st3.nodes, st3.visited, x, settled);
    if f.standIn != f.clone { FinishEntries(st3.nodes, first, f.standIn, settled); }
  }

  ghost predicate FinishedAt(nodes: Nodes, visited: map<Id, VisitInfo>, x: Id, final: Ptr, r: map<Id, VisitInfo>)
    requires x in visited
  {
    && x in r && r[x] == VisitInfo(false, if Differs(nodes, x, final) then final else visited[x].result)
    && (forall y :: y in visited && y != x ==> y in r && r[y] == visited[y])
    && (forall y :: y in r && y !in visited ==>
          Differs(nodes, x, final) && final == Ref(y) && r[y] == VisitInfo(false, final))
    && (Differs(nodes, x, final) && final.Ref? ==> final.id in r)
  }

  /** Only `x`, the stand-in and a new result get other entries. */
  lemma CloseKeeps(v: Visitor, st: State, st3: State, orig: set<Id>, x: Id, f: Frame, final: Ptr)
    requires Mid(v, orig, st, st3, x, f)
    ensures var st' := Close(st3, x, f, final).0;
      && x in st'.visited && !st'.visited[x].inProgress
      && (f.standIn != f.clone ==> f.standIn in st'.visited && !st'.visited[f.standIn].inProgress)
      && (forall y :: y in st3.visited ==> y in st'.visited)
      && (forall y :: y in st3.visited && y != x && (f.standIn == f.clone || y != f.standIn) ==>
            st'.visited[y] == st3.visited[y])
      && (forall y :: y in st'.visited && y !in st3.visited ==>
            Settled(st3.nodes, f.standIn, final) == Ref(y) && st'.visited[y] == VisitInfo(false, Ref(y)))
  {
    ClosedEntries(st3, x, f, Settled(st3.nodes, f.standIn, final));
  }

  lemma CloseSettles(v: Visitor, m: Meaning, st: State, st3: State, orig: set<Id>, x: Id, f: Frame, final: Ptr)
    requires v.visitDagOnce && Good(v, m, st3, orig) && Mid(v, orig, st, st3, x, f)
    ensures Settles(orig, st3, Close(st3, x, f, final).0)
  {
    CloseKeeps(v, st, st3, orig, x, f, final);
  }

  lemma CloseExtends(
    v: Visitor, m: Meaning, st: State, st3: State, orig: set<Id>, x: Id, t: Tree, f: Frame, final: Ptr)
    requires Good(v, m, st, orig) && Enterable(v, st, orig, x, t)
    requires Good(v, m, st3, orig) && Mid(v, orig, st, st3, x, f)
    requires f.standIn in st3.nodes && (final.Ref? ==> final.id in st3.nodes)
    ensures var (st', r) := Close(st3, x, f, final);
      Extends(v, orig, st, st') && st'.visited.Keys <= st'.nodes.Keys
  {
    var st' := Close(st3, x, f, final).0;
    CloseKeeps(v, st, st3, orig, x, f, final);
    if v.visitDagOnce {
      forall y | y in st'.visited && y !in st.visited ensures Accounted(orig, st.next, st'.visited, y) {
        if y in st3.visited { assert Accounted(orig, st.next, st3.visited, y); }
      }
    }
  }

  /** With memoisation the table stays a table of fixed points. */
  lemma CloseFixed(
    v: Visitor, m: Meaning, st: State, st3: State, orig: set<Id>, x: Id, t: Tree, o: Tree, lasting: bool, f: Frame,
    final: Ptr)
    requires v.visitDagOnce && Good(v, m, st, orig) && Enterable(v, st, orig, x, t)
    requires Good(v, m, st3, orig) && Mid(v, orig, st, st3, x, f)
    requires FinalOk(v, m, st3, orig, x, t, o, lasting, f, final)
    ensures var (st', r) := Close(st3, x, f, final);
      && x in st'.visited && st'.visited[x] == VisitInfo(false, r) && Fixed(st', r)
      && (forall y: Id :: Done(st'.visited, y) ==> Fixed(st', st'.visited[y].result))
      && (forall y: Id :: y in orig && Done(st'.visited, y) && y != x ==> Done(st3.visited, y))
  {
    var (st', r) := Close(st3, x, f, final);
    assert st'.visited[x] == VisitInfo(false, r) by { ClosedEntries(st3, x, f, Settled(st3.nodes, f.standIn, final)); }
    CloseKeeps(v, st, st3, orig, x, f, final);
    SettledFixed(v, m, st, st3, orig, x, f, t, o, lasting, final);
    forall y: Id | Done(st'.visited, y) ensures Fixed(st', st'.visited[y].result) {
      if Done(st3.visited, y) {
        assert Fixed(st3, st3.visited[y].result);
      }
    }
  }

  lemma SettledFixed(
    v: Visitor, m: Meaning, st: State, st3: State, orig: set<Id>, x: Id, f: Frame, t: Tree, o: Tree, lasting: bool,
    final: Ptr)
    requires v.visitDagOnce && Mid(v, orig, st, st3, x, f) && x < st.next
    requires FinalOk(v, m, st3, orig, x, t, o, lasting, f, final)
    ensures var (st', r) := Close(st3, x, f, final);
      Fixed(st', r) && (f.standIn != f.clone ==> f.standIn in st'.visited && Fixed(st', st'.visited[f.standIn].result))
  {
    var settled := Settled(st3.nodes, f.standIn, final);
    ClosedEntries(st3, x, f, settled);
  }

  // ---------- what preorder finds in the clone ----------

  /** Which children have been visited before, and are forwarded. */
  ghost function DoneOf(v: Visitor, st: State, ks: seq<Slot<Ptr>>): (r: seq<bool>)
    ensures |r| == |ks|
  {
    seq(|ks|, i requires 0 <= i < |ks| => v.Forwards() && ks[i].at.Ref? && Done(st.visited, ks[i].at.id))
  }

  /** The children in the clone of `x`, as trees. */
  ghost function Seen(v: Visitor, m: Meaning, st: State, x: Id, t: Tree): seq<Slot<Part>>
    requires t.Tree? && Unfolds(st.nodes, Ref(x), t)
  {
    Mix(m, t.kids, DoneOf(v, st, st.nodes[x].kids))
  }

  /** A child of an original node. */
  ghost predicate Rewritable(
    v: Visitor, m: Meaning, st: State, orig: set<Id>, s: Slot<Ptr>, t: Slot<Tree>, d: nat, k: int)
  {
    && UnfoldsAt(st.nodes, s, t) && (s.at.Ref? ==> s.at.id in orig && Inside(st.nodes, orig))
    && SoundBelow(v, m, t.at) && ElementSound(v, m, t)
    && d >= Need(m, t.at) && d >= Height(RewriteTree(m, t.at)) && Height(t.at) <= k
  }

  ghost predicate AllRewritable(
    v: Visitor, m: Meaning, st: State, orig: set<Id>, ks: seq<Slot<Ptr>>, ts: seq<Slot<Tree>>, d: nat, k: int)
  {
    |ks| == |ts|
    && forall i {:trigger Rewritable(v, m, st, orig, ks[i], ts[i], d, k)} ::
         0 <= i < |ts| ==> Rewritable(v, m, st, orig, ks[i], ts[i], d, k)
  }

  /** What is asked of the children of a node. */
  ghost predicate KidsSound(v: Visitor, m: Meaning, ts: seq<Slot<Tree>>)
  {
    forall i :: 0 <= i < |ts| ==> ElementSound(v, m, ts[i]) && SoundBelow(v, m, ts[i].at)
  }

  lemma KidsRewritable(v: Visitor, m: Meaning, st: State, orig: set<Id>, x: Id, t: Tree, d: nat)
    requires t.Tree? && Unfolds(st.nodes, Ref(x), t) && x in orig && Inside(st.nodes, orig)
    requires KidsSound(v, m, t.kids) && d >= Need(m, t)
    ensures AllRewritable(v, m, st, orig, st.nodes[x].kids, t.kids, d - 1, Height(t) - 1)
  {
    UnfoldsNode(st.nodes, Ref(x), t);
    assert Within(st.nodes[x].kids, orig);
    forall i | 0 <= i < |t.kids|
      ensures Rewritable(v, m, st, orig, st.nodes[x].kids[i], t.kids[i], d - 1, Height(t) - 1)
    {
      assert UnfoldsAt(st.nodes, st.nodes[x].kids[i], t.kids[i]);
      NeedOfKid(m, t.kids, i);
      HeightOfKid(t.kids, i);
    }
  }

  lemma KnownResult(v: Visitor, m: Meaning, st: State, orig: set<Id>, x: Id, t: Tree)
    requires Good(v, m, st, orig) && v.visitDagOnce && Done(st.visited, x) && x in orig && Unfolds(st.nodes, Ref(x), t)
    ensures ResultOk(v, m, st, orig, Result(st.visited, x), Ref(x), t)
  {
    assert MemoOk(v, m, st, orig, x);
    var u :| Unfolds(st.nodes, Ref(x), u) && ResultOk(v, m, st, orig, st.visited[x].result, Ref(x), u);
    UnfoldsUnique(st.nodes, Ref(x), t, u);
  }

  lemma PieceHeights(t: Slot<Tree>, u: Tree, d: nat)
    requires d >= Height(u)
    ensures forall i :: 0 <= i < |TreePiece(t, u)| ==> d >= Height(TreePiece(t, u)[i].at)
  {
    forall i | 0 <= i < |TreePiece(t, u)| ensures d >= Height(TreePiece(t, u)[i].at) {
      if t.kind.Elem? && u != t.at && IsVector(u) { HeightOfKid(u.kids, i); }
    }
  }

  /** What forwarding puts in the place of one child. */
  ghost function ForwardPart(m: Meaning, t: Slot<Tree>, done: bool): seq<Slot<Part>>
  {
    if done then Same(TreePiece(t, RewriteTree(m, t.at))) else [Original(m, t)]
  }

  lemma ForwardOneOk(
    v: Visitor, m: Meaning, st: State, orig: set<Id>, x: Id, s: Slot<Ptr>, t: Slot<Tree>, d: nat, k: int)
    requires v.Forwards() && Good(v, m, st, orig) && !Done(st.visited, x) && Rewritable(v, m, st, orig, s, t, d, k)
    ensures (var out := Piece(st.nodes, s, Known(Started(st.visited, x), s.at));
      var ps := ForwardPart(m, t, s.at.Ref? && Done(st.visited, s.at.id));
      && AllExpected(v, m, st, orig, out, ps, d, k)
      && (Untouched(v, m, t.at) ==> out == [s] && ps == Same([t])))
  {
    if s.at.Ref? && Done(st.visited, s.at.id) {
      KnownResult(v, m, st, orig, s.at.id, t.at);
      var r, u := Result(st.visited, s.at.id), RewriteTree(m, t.at);
      PieceOk(v, m, st, orig, s, t, r);
      PieceHeights(t, u, d);
      var out, us := Piece(st.nodes, s, r), TreePiece(t, u);
      forall i | 0 <= i < |us| ensures Expected(v, m, st, orig, out[i], Same(us)[i], d, k) {
        assert UnfoldsAt(st.nodes, out[i], us[i]) && Idle(v, m, st, orig, out[i].at, us[i].at);
      }
    } else {
      assert Piece(st.nodes, s, s.at) == [s];
      assert Expected(v, m, st, orig, s, Original(m, t), d, k);
      if Untouched(v, m, t.at) { UntouchedIsFixed(v, m, t.at); }
    }
  }

  lemma {:induction false} ForwardOk(
    v: Visitor, m: Meaning, st: State, orig: set<Id>, x: Id, ks: seq<Slot<Ptr>>, ts: seq<Slot<Tree>>, d: nat, k: int)
    requires v.Forwards() && Good(v, m, st, orig) && !Done(st.visited, x) && AllRewritable(v, m, st, orig, ks, ts, d, k)
    ensures (var out, ps := Forward(st.nodes, Started(st.visited, x), ks), Mix(m, ts, DoneOf(v, st, ks));
      && AllExpected(v, m, st, orig, out, ps, d, k)
      && ((forall i :: 0 <= i < |ts| ==> Untouched(v, m, ts[i].at)) ==> out == ks && ps == Same(ts)))
    decreases |ks|
  {
    if ks != [] {
      var s, t, rest := ks[0], ts[0], ts[1..];
      assert Rewritable(v, m, st, orig, s, t, d, k);
      ForwardOneOk(v, m, st, orig, x, s, t, d, k);
      TailRewritable(v, m, st, orig, ks, ts, d, k);
      ForwardOk(v, m, st, orig, x, ks[1..], rest, d, k);
      assert DoneOf(v, st, ks)[1..] == DoneOf(v, st, ks[1..]);
      ExpectedAppend(v, m, st, orig, Piece(st.nodes, s, Known(Started(st.visited, x), s.at)),
                     ForwardPart(m, t, DoneOf(v, st, ks)[0]), Forward(st.nodes, Started(st.visited, x), ks[1..]),
                     Mix(m, rest, DoneOf(v, st, ks[1..])), d, k);
      if forall i :: 0 <= i < |ts| ==> Untouched(v, m, ts[i].at) {
        forall i | 0 <= i < |rest| ensures Untouched(v, m, rest[i].at) { assert Untouched(v, m, ts[i + 1].at); }
        SameTail(ks, ts);
      }
    }
  }

  lemma SameTail(ks: seq<Slot<Ptr>>, ts: seq<Slot<Tree>>)
    requires |ks| == |ts| > 0
    ensures [ks[0]] + ks[1..] == ks && Same([ts[0]]) + Same(ts[1..]) == Same(ts)
  {}

  lemma TailRewritable(
    v: Visitor, m: Meaning, st: State, orig: set<Id>, ks: seq<Slot<Ptr>>, ts: seq<Slot<Tree>>, d: nat, k: int)
    requires AllRewritable(v, m, st, orig, ks, ts, d, k) && ks != []
    ensures AllRewritable(v, m, st, orig, ks[1..], ts[1..], d, k)
  {
    forall i | 0 <= i < |ts| - 1 ensures Rewritable(v, m, st, orig, ks[1..][i], ts[1..][i], d, k) {
      assert Rewritable(v, m, st, orig, ks[i + 1], ts[i + 1], d, k);
    }
  }

  lemma ExpectedAppend(
    v: Visitor, m: Meaning, st: State, orig: set<Id>, ks: seq<Slot<Ptr>>, ps: seq<Slot<Part>>, ls: seq<Slot<Ptr>>,
    qs: seq<Slot<Part>>, d: nat, k: int)
    requires AllExpected(v, m, st, orig, ks, ps, d, k) && AllExpected(v, m, st, orig, ls, qs, d, k)
    ensures AllExpected(v, m, st, orig, ks + ls, ps + qs, d, k)
  {
    forall i | 0 <= i < |ps + qs| ensures Expected(v, m, st, orig, (ks + ls)[i], (ps + qs)[i], d, k) {
      if i < |ps| { assert Expected(v, m, st, orig, ks[i], ps[i], d, k); }
      else { assert Expected(v, m, st, orig, ls[i - |ps|], qs[i - |ps|], d, k); }
    }
  }

  /** Without forwarding the clone has the original children. */
  lemma {:induction false} NothingDone(m: Meaning, ts: seq<Slot<Tree>>, done: seq<bool>)
    requires |done| == |ts| && forall i :: 0 <= i < |done| ==> !done[i]
    ensures |Mix(m, ts, done)| == |ts| && forall i :: 0 <= i < |ts| ==> Mix(m, ts, done)[i] == Original(m, ts[i])
  {
    if ts != [] { NothingDone(m, ts[1..], done[1..]); }
  }

  /** The children are found as they were, and if they are visited they stay so. */
  ghost predicate SeenAsIs(m: Meaning, t: Tree, seen: seq<Slot<Part>>)
    requires t.Tree?
  {
    Nows(seen) == t.kids && (seen == Same(t.kids) || (m.pre(t, t).Go? && m.pre(t, t).prune))
  }

  /** The clone of an original node holds what is expected, for the children that are done. */
  lemma ClonedOk(v: Visitor, m: Meaning, st: State, orig: set<Id>, x: Id, t: Tree, d: nat)
    requires Good(v, m, st, orig) && Enterable(v, st, orig, x, t) && Inside(st.nodes, orig)
    requires t.Tree? && KidsSound(v, m, t.kids) && d >= Need(m, t)
    ensures (var seen := Seen(v, m, st, x, t);
      && AllExpected(v, m, st, orig, Cloned(v, st, x).kids, seen, d - 1, Height(t) - 1)
      && (Untouched(v, m, t) ==> Cloned(v, st, x) == st.nodes[x] && SeenAsIs(m, t, seen))
      && Possible(v, t.kids, DoneOf(v, st, st.nodes[x].kids)))
  {
    var ks := st.nodes[x].kids;
    KidsRewritable(v, m, st, orig, x, t, d);
    ListClonedOk(v, m, st, orig, x, ks, t.kids, d - 1, Height(t) - 1);
  }

  lemma ListClonedOk(
    v: Visitor, m: Meaning, st: State, orig: set<Id>, x: Id, ks: seq<Slot<Ptr>>, ts: seq<Slot<Tree>>, d: nat, k: int)
    requires Good(v, m, st, orig) && AllRewritable(v, m, st, orig, ks, ts, d, k)
    requires v.Forwards() ==> !Done(st.visited, x)
    ensures (var out := if v.Forwards() then Forward(st.nodes, Started(st.visited, x), ks) else ks;
      var seen := Mix(m, ts, DoneOf(v, st, ks));
      && AllExpected(v, m, st, orig, out, seen, d, k)
      && (!v.Forwards() ==> Nows(seen) == ts)
      && ((forall i :: 0 <= i < |ts| ==> Untouched(v, m, ts[i].at)) ==> out == ks && seen == Same(ts)))
    ensures Possible(v, ts, DoneOf(v, st, ks))
  {
    if v.Forwards() {
      ForwardOk(v, m, st, orig, x, ks, ts, d, k);
    } else {
      NotForwardedOk(v, m, st, orig, ks, ts, d, k);
    }
  }

  lemma NotForwardedOk(
    v: Visitor, m: Meaning, st: State, orig: set<Id>, ks: seq<Slot<Ptr>>, ts: seq<Slot<Tree>>, d: nat, k: int)
    requires !v.Forwards() && AllRewritable(v, m, st, orig, ks, ts, d, k)
    ensures var seen := Mix(m, ts, DoneOf(v, st, ks));
      && AllExpected(v, m, st, orig, ks, seen, d, k)
      && Nows(seen) == ts && ((forall i :: 0 <= i < |ts| ==> Untouched(v, m, ts[i].at)) ==> seen == Same(ts))
  {
    var seen := Mix(m, ts, DoneOf(v, st, ks));
    NothingDone(m, ts, DoneOf(v, st, ks));
    forall i | 0 <= i < |ks|
      ensures Expected(v, m, st, orig, ks[i], seen[i], d, k) && (Untouched(v, m, ts[i].at) ==> seen[i] == Same(ts)[i])
    {
      assert Rewritable(v, m, st, orig, ks[i], ts[i], d, k);
      if Untouched(v, m, ts[i].at) { UntouchedIsFixed(v, m, ts[i].at); }
    }
  }

  // ---------- the traversal ----------

  /** What preorder finds in the clone is `seen`. */
  ghost predicate Finds(
    v: Visitor, m: Meaning, st: State, orig: set<Id>, x: Id, t: Tree, seen: seq<Slot<Part>>, d: nat)
  {
    && d > 0 && t.Tree? && Enterable(v, st, orig, x, t) && Above(st, orig, Height(t)) && x in st.nodes
    && AllExpected(v, m, st, orig, Cloned(v, st, x).kids, seen, d - 1, Height(t) - 1)
    && (Untouched(v, m, t) ==> Cloned(v, st, x) == st.nodes[x] && SeenAsIs(m, t, seen))
  }

  lemma AskedMeans(
    v: Visitor, m: Meaning, st: State, orig: set<Id>, x: Id, t: Tree, seen: seq<Slot<Part>>, d: nat)
    requires Implements(v, m) && Finds(v, m, st, orig, x, t, seen, d)
    ensures Asked(v, st, x) == m.pre(t, Tree(t.tag, Nows(seen)))
    ensures Untouched(v, m, t) ==> Asked(v, st, x) == m.pre(t, t)
  {
    ExpectedUnfold(v, m, st, orig, Cloned(v, st, x).kids, seen, d - 1, Height(t) - 1);
    UnfoldsNode(st.nodes, Ref(x), t);
    assert Tree(t.tag, t.kids) == t;
    SettleSame(t.kids);
  }

  /** A node is visited: what is returned is a correct result for it. */
  lemma {:induction false} VisitInRoom(v: Visitor, m: Meaning, st: State, orig: set<Id>, n: Ptr, t: Tree, d: nat)
    requires Implements(v, m) && SoundBelow(v, m, t) && Good(v, m, st, orig) && Inside(st.nodes, orig)
    requires Above(st, orig, Height(t)) && Unfolds(st.nodes, n, t) && (n.Ref? ==> n.id in orig) && d >= Need(m, t)
    ensures VisitWell(v, m, st, orig, n, t, d)
    decreases d, 4, 0
  {
    if n.Ref? {
      if v.visitDagOnce && Done(st.visited, n.id) {
        KnownResult(v, m, st, orig, n.id, t);
      } else {
        StackIsAbove(v, m, st, orig, n.id, t);
        VisitFresh(v, m, st, orig, n.id, t, d);
      }
    }
  }

  /** A node cannot be met below itself, so the loop check of `start` does not fire. */
  lemma StackIsAbove(v: Visitor, m: Meaning, st: State, orig: set<Id>, x: Id, t: Tree)
    requires Above(st, orig, Height(t)) && Unfolds(st.nodes, Ref(x), t) && x in orig
    ensures x in st.visited ==> !st.visited[x].inProgress
  {
    if x in st.visited && st.visited[x].inProgress {
      assert StackEntry(st, x, Height(t));
      var u :| Unfolds(st.nodes, Ref(x), u) && Height(u) > Height(t);
      UnfoldsUnique(st.nodes, Ref(x), t, u);
    }
  }

  /** A visit of `n` keeps the state good, and what it returns is a correct result for `n`. */
  ghost predicate VisitWell(v: Visitor, m: Meaning, st: State, orig: set<Id>, n: Ptr, t: Tree, d: nat)
  {
    var (st', r) := Visit(v, st, n, d);
    Good(v, m, st', orig) && Extends(v, orig, st, st') && ResultOk(v, m, st', orig, r, n, t)
  }

  lemma {:induction false} VisitFresh(v: Visitor, m: Meaning, st: State, orig: set<Id>, x: Id, t: Tree, d: nat)
    requires Implements(v, m) && SoundBelow(v, m, t) && Good(v, m, st, orig) && Inside(st.nodes, orig)
    requires Above(st, orig, Height(t)) && Enterable(v, st, orig, x, t) && d >= Need(m, t)
    ensures VisitWell(v, m, st, orig, Ref(x), t, d)
    decreases d, 3
  {
    var seen := Seen(v, m, st, x, t);
    FindsSeen(v, m, st, orig, x, t, d);
    AskedMeans(v, m, st, orig, x, t, seen, d);
    SeenStable(v, m, st, orig, x, t, d);
    if Asked(v, st, x).Remove? {
      VisitRemoves(v, m, st, orig, x, t, d);
    } else {
      VisitedOk(v, m, st, orig, x, t, seen, d);
      VisitEnds(v, m, st, orig, x, t, seen, d);
    }
  }

  lemma FindsSeen(v: Visitor, m: Meaning, st: State, orig: set<Id>, x: Id, t: Tree, d: nat)
    requires t.Tree? && KidsSound(v, m, t.kids) && Good(v, m, st, orig) && Enterable(v, st, orig, x, t)
    requires Inside(st.nodes, orig) && Above(st, orig, Height(t)) && d >= Need(m, t)
    ensures d > 0 && Finds(v, m, st, orig, x, t, Seen(v, m, st, x, t), d)
  {
    ClonedOk(v, m, st, orig, x, t, d);
  }

  lemma VisitRemoves(v: Visitor, m: Meaning, st: State, orig: set<Id>, x: Id, t: Tree, d: nat)
    requires Good(v, m, st, orig) && Enterable(v, st, orig, x, t) && RewriteTree(m, t) == Nil && !Untouched(v, m, t)
    requires d > 0 && x in st.nodes && Asked(v, st, x).Remove?
    ensures VisitWell(v, m, st, orig, Ref(x), t, d)
  {
    RemoveOk(v, m, st, orig, x, t);
    VisitStops(v, st, x, d);
  }

  /** A visit that preorder answers with null. */
  lemma VisitStops(v: Visitor, st: State, x: Id, d: nat)
    requires x in st.nodes && d > 0 && Asked(v, st, x).Remove? && !(v.visitDagOnce && Done(st.visited, x))
    requires !(x in st.visited && st.visited[x].inProgress)
    ensures Visit(v, st, Ref(x), d) ==
      (st.(visited := Finish(st.nodes, Started(st.visited, x), x, Null), next := st.next + 1), Null)
  {}

  lemma VisitEnds(v: Visitor, m: Meaning, st: State, orig: set<Id>, x: Id, t: Tree, seen: seq<Slot<Part>>, d: nat)
    requires Good(v, m, st, orig) && Enterable(v, st, orig, x, t) && t.Tree? && x in st.nodes && d > 0
    requires Asked(v, st, x).Go? && VisitedWell(v, m, st, orig, x, t, seen, d)
    requires Outcome(m, t, seen) == RewriteTree(m, t) && (Lasting(v, m, t) ==> LastingFor(v, m, t, seen))
    ensures VisitWell(v, m, st, orig, Ref(x), t, d)
  {
    var (st3, f, final) := Visited(v, st, x, d);
    CloseOk(v, m, st, st3, orig, x, t, LastingFor(v, m, t, seen), f, final);
    VisitSteps(v, st, x, d);
  }

  /** A visit that preorder lets go on. */
  lemma VisitSteps(v: Visitor, st: State, x: Id, d: nat)
    requires x in st.nodes && d > 0 && Asked(v, st, x).Go? && !(v.visitDagOnce && Done(st.visited, x))
    requires !(x in st.visited && st.visited[x].inProgress)
    ensures var (st3, f, final) := Visited(v, st, x, d);
      Visit(v, st, Ref(x), d) == Close(st3, x, f, final)
  {}

  /** Just before its end, the visit of `x` has the outcome for the children preorder found. */
  ghost predicate VisitedWell(
    v: Visitor, m: Meaning, st: State, orig: set<Id>, x: Id, t: Tree, seen: seq<Slot<Part>>, d: nat)
    requires x in st.nodes && Asked(v, st, x).Go? && d > 0 && t.Tree?
  {
    var (st3, f, final) := Visited(v, st, x, d);
    && Good(v, m, st3, orig) && Mid(v, orig, st, st3, x, f)
    && FinalOk(v, m, st3, orig, x, t, Outcome(m, t, seen), LastingFor(v, m, t, seen), f, final)
    && f.standIn in st3.nodes && (final.Ref? ==> final.id in st3.nodes)
  }

  lemma SeenStable(v: Visitor, m: Meaning, st: State, orig: set<Id>, x: Id, t: Tree, d: nat)
    requires SoundBelow(v, m, t) && Good(v, m, st, orig) && Enterable(v, st, orig, x, t)
    requires Inside(st.nodes, orig) && d >= Need(m, t)
    ensures Outcome(m, t, Seen(v, m, st, x, t)) == RewriteTree(m, t)
    ensures Lasting(v, m, t) ==> LastingFor(v, m, t, Seen(v, m, st, x, t))
  {
    ClonedOk(v, m, st, orig, x, t, d);
    var done := DoneOf(v, st, st.nodes[x].kids);
    if v.Forwards() {
      assert Outcome(m, t, Mix(m, t.kids, done)) == RewriteTree(m, t);
    } else {
      NothingDone(m, t.kids, done);
      assert Mix(m, t.kids, done) == Plain(m, t);
    }
    assert Possible(v, t.kids, done) && Seen(v, m, st, x, t) == Mix(m, t.kids, done);
  }

  lemma {:induction false} VisitedOk(
    v: Visitor, m: Meaning, st: State, orig: set<Id>, x: Id, t: Tree, seen: seq<Slot<Part>>, d: nat)
    requires Implements(v, m) && Good(v, m, st, orig) && Finds(v, m, st, orig, x, t, seen, d) && Asked(v, st, x).Go?
    ensures VisitedWell(v, m, st, orig, x, t, seen, d)
    decreases d, 2
  {
    var go := Asked(v, st, x);
    AskedMeans(v, m, st, orig, x, t, seen, d);
    if go.prune {
      ExpectedUnfold(v, m, st, orig, Cloned(v, st, x).kids, seen, d - 1, Height(t) - 1);
      PruneOk(v, m, st, orig, x, t, seen, go, d);
    } else {
      RevisitedOk(v, m, st, orig, x, t, seen, d);
      var (st2, f) := Revisited(v, st, x, go, d);
      ApplyOk(v, m, st, st2, orig, x, t, seen, go, f);
    }
  }

  /** The children of the clone of `x` have been visited. */
  ghost predicate RevisitedWell(
    v: Visitor, m: Meaning, st: State, orig: set<Id>, x: Id, t: Tree, seen: seq<Slot<Part>>, go: PreAction, d: nat)
    requires x in st.nodes && t.Tree? && go.Go? && d > 0
  {
    var (st2, f) := Revisited(v, st, x, go, d);
    var ks := Settle(Pick(seen, go.sel, NONE));
    && Good(v, m, st2, orig) && Mid(v, orig, st, st2, x, f) && f.clone !in st2.nodes
    && (f.standIn != f.clone ==> f.standIn in st2.nodes) && f.copy.tag == go.tag
    && KidsOk(v, m, st2, orig, f.copy.kids, ks) && UntouchedClone(v, m, st.nodes[x], t, go, f, ks)
  }

  lemma {:induction false} RevisitedOk(
    v: Visitor, m: Meaning, st: State, orig: set<Id>, x: Id, t: Tree, seen: seq<Slot<Part>>, d: nat)
    requires Implements(v, m) && Good(v, m, st, orig) && Finds(v, m, st, orig, x, t, seen, d) && Asked(v, st, x).Go?
    requires !Asked(v, st, x).prune
    ensures RevisitedWell(v, m, st, orig, x, t, seen, Asked(v, st, x), d)
    decreases d, 1
  {
    var go := Asked(v, st, x);
    var (st1, f) := Open(v, st, x, go);
    OpenReady(v, m, st, orig, x, t, seen, go, d);
    OpenOk(v, m, st, orig, x, t, seen, go, d);
    OpenedOk(v, m, st, orig, x, t, seen, go, st1, f, d);
  }

  /** The clone of `x` has been opened. */
  ghost predicate OpenedWell(
    v: Visitor, m: Meaning, st: State, orig: set<Id>, x: Id, t: Tree, seen: seq<Slot<Part>>, go: PreAction, st1: State,
    f: Frame)
    requires x in st.nodes && t.Tree? && go.Go?
  {
    var ps := Pick(seen, go.sel, NONE);
    && Mid(v, orig, st, st1, x, f) && f.clone !in st1.nodes
    && (f.standIn != f.clone ==> f.standIn in st1.nodes) && f.copy.tag == go.tag
    && UntouchedClone(v, m, st.nodes[x], t, go, f, Settle(ps))
    && (Untouched(v, m, t) ==> forall i :: 0 <= i < |ps| ==> Untouched(v, m, ps[i].at.now))
  }

  lemma OpenOk(
    v: Visitor, m: Meaning, st: State, orig: set<Id>, x: Id, t: Tree, seen: seq<Slot<Part>>, go: PreAction, d: nat)
    requires Implements(v, m) && Good(v, m, st, orig) && Finds(v, m, st, orig, x, t, seen, d)
    requires go == Asked(v, st, x) && go.Go? && !go.prune
    ensures var (st1, f) := Open(v, st, x, go);
      OpenedWell(v, m, st, orig, x, t, seen, go, st1, f)
  {
    AskedMeans(v, m, st, orig, x, t, seen, d);
    OpenMid(v, m, st, orig, x, t, go);
    if Untouched(v, m, t) {
      UnfoldsNode(st.nodes, Ref(x), t);
      UntouchedPicks(v, m, st, x, t, seen, go);
    }
  }

  /** The state is ready for the children of the clone. */
  lemma OpenReady(
    v: Visitor, m: Meaning, st: State, orig: set<Id>, x: Id, t: Tree, seen: seq<Slot<Part>>, go: PreAction, d: nat)
    requires Good(v, m, st, orig) && Finds(v, m, st, orig, x, t, seen, d) && go.Go?
    ensures var (st1, f) := Open(v, st, x, go);
      && Good(v, m, st1, orig) && Above(st1, orig, Height(t) - 1)
      && AllExpected(v, m, st1, orig, f.copy.kids, Pick(seen, go.sel, NONE), d - 1, Height(t) - 1)
  {
    OpenGood(v, m, st, orig, x, t, go);
    OpenAbove(v, m, st, orig, x, t, go);
    OpenExpected(v, m, st, orig, x, t, seen, go, d);
  }

  lemma {:induction false} OpenedOk(
    v: Visitor, m: Meaning, st: State, orig: set<Id>, x: Id, t: Tree, seen: seq<Slot<Part>>, go: PreAction, st1: State,
    f: Frame, d: nat)
    requires Implements(v, m) && x in st.nodes && t.Tree? && go.Go? && d > 0 && (st1, f) == Open(v, st, x, go)
    requires OpenedWell(v, m, st, orig, x, t, seen, go, st1, f) && Good(v, m, st1, orig)
    requires AllExpected(v, m, st1, orig, f.copy.kids, Pick(seen, go.sel, NONE), d - 1, Height(t) - 1)
    requires Above(st1, orig, Height(t) - 1)
    ensures RevisitedWell(v, m, st, orig, x, t, seen, go, d)
    decreases d, 0
  {
    ListOk(v, m, st1, orig, f.copy.kids, Pick(seen, go.sel, NONE), d - 1, Height(t) - 1);
    var (st2, out) := VisitAll(v, st1, f.copy.kids, d - 1);
    MidGrows(v, orig, st, st1, st2, x, f);
  }

  /** The children of the clone are expected in the state in which they are visited. */
  lemma OpenExpected(
    v: Visitor, m: Meaning, st: State, orig: set<Id>, x: Id, t: Tree, seen: seq<Slot<Part>>, go: PreAction, d: nat)
    requires Good(v, m, st, orig) && Finds(v, m, st, orig, x, t, seen, d) && go.Go?
    ensures var (st1, f) := Open(v, st, x, go);
      AllExpected(v, m, st1, orig, f.copy.kids, Pick(seen, go.sel, NONE), d - 1, Height(t) - 1)
  {
    var (st1, f) := Open(v, st, x, go);
    OpenMid(v, m, st, orig, x, t, go);
    ExpectedPick(v, m, st, orig, Cloned(v, st, x).kids, seen, go.sel, d - 1, Height(t) - 1);
    if v.visitDagOnce { MidSettles(v, orig, st, st1, x, f); }
    ExpectedGrows(v, m, st, st1, orig, f.copy.kids, Pick(seen, go.sel, NONE), d - 1, Height(t) - 1);
  }

  lemma UntouchedPicks(
    v: Visitor, m: Meaning, st: State, x: Id, t: Tree, seen: seq<Slot<Part>>, go: PreAction)
    requires x in st.nodes && t.Tree? && Untouched(v, m, t) && go == m.pre(t, t) && SeenAsIs(m, t, seen)
    requires !go.prune && Cloned(v, st, x) == st.nodes[x] && |st.nodes[x].kids| == |t.kids|
    ensures Pick(seen, go.sel, NONE) == seen && Pick(st.nodes[x].kids, go.sel, NULL) == st.nodes[x].kids
    ensures Settle(seen) == t.kids && forall i :: 0 <= i < |seen| ==> Untouched(v, m, seen[i].at.now)
  {
    PickIota(seen, NONE);
    PickIota(st.nodes[x].kids, NULL);
    SettleSame(t.kids);
  }

  /** A visit of `ks`, which ended in `st'`, kept the state good and put in their places what `ps` says. */
  ghost predicate ListWell(
    v: Visitor, m: Meaning, st: State, orig: set<Id>, ks: seq<Slot<Ptr>>, ps: seq<Slot<Part>>, st': State,
    out: seq<Slot<Ptr>>)
  {
    && Good(v, m, st', orig) && Extends(v, orig, st, st') && KidsOk(v, m, st', orig, out, Settle(ps))
    && Stays(v, m, ps, ks, out)
  }

  /** Children that the callbacks leave alone stay where they are. */
  ghost predicate Stays(v: Visitor, m: Meaning, ps: seq<Slot<Part>>, ks: seq<Slot<Ptr>>, out: seq<Slot<Ptr>>)
  {
    (forall i :: 0 <= i < |ps| ==> Untouched(v, m, ps[i].at.now)) ==> out == ks
  }

  /** The children of a clone are visited one after the other. */
  lemma {:induction false} ListOk(
    v: Visitor, m: Meaning, st: State, orig: set<Id>, ks: seq<Slot<Ptr>>, ps: seq<Slot<Part>>, d: nat, k: int)
    requires Implements(v, m) && Good(v, m, st, orig) && Above(st, orig, k) && AllExpected(v, m, st, orig, ks, ps, d, k)
    ensures ListWell(v, m, st, orig, ks, ps, VisitAll(v, st, ks, d).0, VisitAll(v, st, ks, d).1)
    decreases d, 5, |ks|, 1
  {
    if ks != [] {
      var (st1, r) := Visit(v, st, ks[0].at, d);
      FirstOk(v, m, st, orig, ks, ps, d, k);
      ListOk(v, m, st1, orig, ks[1..], ps[1..], d, k);
      var (st2, rest) := VisitAll(v, st1, ks[1..], d);
      ListJoins(v, m, st, st1, st2, orig, ks, ps, r, rest);
    }
  }

  /** The first child of a clone is visited, and the others are still what they were. */
  lemma {:induction false} FirstOk(
    v: Visitor, m: Meaning, st: State, orig: set<Id>, ks: seq<Slot<Ptr>>, ps: seq<Slot<Part>>, d: nat, k: int)
    requires Implements(v, m) && Good(v, m, st, orig) && Above(st, orig, k) && AllExpected(v, m, st, orig, ks, ps, d, k)
    requires ks != []
    ensures var (st1, r) := Visit(v, st, ks[0].at, d);
      && OneWell(v, m, st, orig, ks[0], ps[0], st1, r)
      && Above(st1, orig, k) && AllExpected(v, m, st1, orig, ks[1..], ps[1..], d, k)
    decreases d, 5, |ks|, 0
  {
    var (st1, r) := Visit(v, st, ks[0].at, d);
    assert Expected(v, m, st, orig, ks[0], ps[0], d, k);
    OneOk(v, m, st, orig, ks[0], ps[0], d, k);
    AboveGrows(v, orig, st, st1, k);
    if v.visitDagOnce { ExtendsSettles(v, orig, st, st1); }
    ExpectedGrows(v, m, st, st1, orig, ks, ps, d, k);
    forall i | 0 <= i < |ps| - 1 ensures Expected(v, m, st1, orig, ks[1..][i], ps[1..][i], d, k) {
      assert Expected(v, m, st1, orig, ks[i + 1], ps[i + 1], d, k);
    }
  }

  lemma ListJoins(
    v: Visitor, m: Meaning, st: State, st1: State, st2: State, orig: set<Id>, ks: seq<Slot<Ptr>>, ps: seq<Slot<Part>>,
    r: Ptr, rest: seq<Slot<Ptr>>)
    requires |ks| == |ps| > 0 && Basic(v, st1)
    requires OneWell(v, m, st, orig, ks[0], ps[0], st1, r)
    requires ListWell(v, m, st1, orig, ks[1..], ps[1..], st2, rest)
    ensures ListWell(v, m, st, orig, ks, ps, st2, Piece(st1.nodes, ks[0], r) + rest)
  {
    ExtendsTransitive(v, orig, st, st1, st2);
    KidsAppend(v, m, st1, st2, orig, Piece(st1.nodes, ks[0], r), TreePiece(Now(ps[0]), ps[0].at.result), rest,
               Settle(ps[1..]));
    if forall i :: 0 <= i < |ps| ==> Untouched(v, m, ps[i].at.now) {
      forall i | 0 <= i < |ps| - 1 ensures Untouched(v, m, ps[1..][i].at.now) {
        assert Untouched(v, m, ps[i + 1].at.now);
      }
      assert [ks[0]] + ks[1..] == ks;
    }
  }

  lemma KidsAppend(
    v: Visitor, m: Meaning, st1: State, st2: State, orig: set<Id>, ks: seq<Slot<Ptr>>, ts: seq<Slot<Tree>>,
    ls: seq<Slot<Ptr>>, us: seq<Slot<Tree>>)
    requires Extends(v, orig, st1, st2) && Basic(v, st1) && KidsOk(v, m, st1, orig, ks, ts)
    requires KidsOk(v, m, st2, orig, ls, us)
    ensures KidsOk(v, m, st2, orig, ks + ls, ts + us)
  {
    UnfoldsAllGrows(st1.nodes, st2.nodes, ks, ts);
    UnfoldsAppend(st2.nodes, ks, ts, ls, us);
    if v.visitDagOnce {
      ExtendsSettles(v, orig, st1, st2);
      AllIdleGrows(v, m, st1, st2, orig, ks, ts);
      AllIdleAppend(v, m, st2, orig, ks, ts, ls, us);
    }
  }

  /** A visit of `s`, which ended in `st'`, kept the state good and put in its place what `q` says. */
  ghost predicate OneWell(
    v: Visitor, m: Meaning, st: State, orig: set<Id>, s: Slot<Ptr>, q: Slot<Part>, st': State, r: Ptr)
  {
    && Good(v, m, st', orig) && Extends(v, orig, st, st')
    && KidsOk(v, m, st', orig, Piece(st'.nodes, s, r), TreePiece(Now(q), q.at.result))
    && (Untouched(v, m, q.at.now) ==> Piece(st'.nodes, s, r) == [s])
  }

  /** One child of a clone is visited. */
  lemma {:induction false} OneOk(
    v: Visitor, m: Meaning, st: State, orig: set<Id>, s: Slot<Ptr>, q: Slot<Part>, d: nat, k: int)
    requires Implements(v, m) && Good(v, m, st, orig) && Above(st, orig, k) && Expected(v, m, st, orig, s, q, d, k)
    ensures var (st1, r) := Visit(v, st, s.at, d);
      OneWell(v, m, st, orig, s, q, st1, r)
    decreases d, 5, 0, 0
  {
    var (st1, r) := Visit(v, st, s.at, d);
    if IsIdle(v, m, st, orig, s.at, q.at, d) {
      IdleOk(v, m, st, orig, s.at, q.at.now, d);
      ExtendsSettles(v, orig, st, st1);
      GoodGrows(v, m, st, st1, orig);
      UnfoldsGrows(st.nodes, st1.nodes, s.at, q.at.now);
    } else {
      AboveWeaker(st, orig, k, Height(q.at.now));
      if s.at.Null? {
        assert q.at.now.Nil?;
      }
      OriginalOk(v, m, st, orig, s, q, d, k);
    }
  }

  lemma {:induction false} OriginalOk(
    v: Visitor, m: Meaning, st: State, orig: set<Id>, s: Slot<Ptr>, q: Slot<Part>, d: nat, k: int)
    requires Implements(v, m) && Good(v, m, st, orig) && Above(st, orig, Height(q.at.now))
      && UnfoldsAt(st.nodes, s, Now(q))
    requires IsOriginal(v, m, st, orig, s.at, q.at, d, k) && ElementSound(v, m, Now(q))
    ensures var (st1, r) := Visit(v, st, s.at, d);
      OneWell(v, m, st, orig, s, q, st1, r)
    decreases d, 4, 1
  {
    var (st1, r) := Visit(v, st, s.at, d);
    if s.at.Ref? {
      VisitInRoom(v, m, st, orig, s.at, q.at.now, d);
      UnfoldsGrows(st.nodes, st1.nodes, s.at, q.at.now);
    }
    PieceOk(v, m, st1, orig, s, Now(q), r);
  }

  lemma RemoveOk(v: Visitor, m: Meaning, st: State, orig: set<Id>, x: Id, t: Tree)
    requires Good(v, m, st, orig) && Enterable(v, st, orig, x, t) && RewriteTree(m, t) == Nil && !Untouched(v, m, t)
    ensures var st' := st.(visited := Finish(st.nodes, Started(st.visited, x), x, Null), next := st.next + 1);
      Good(v, m, st', orig) && Extends(v, orig, st, st') && ResultOk(v, m, st', orig, Null, Ref(x), t)
  {
    var st' := st.(visited := Finish(st.nodes, Started(st.visited, x), x, Null), next := st.next + 1);
    if v.visitDagOnce {
      forall y: Id | Done(st'.visited, y) ensures Fixed(st', st'.visited[y].result) {
        if y != x { assert Fixed(st, st.visited[y].result); }
      }
      assert Settles(orig, st, st');
      forall y: Id | y in orig && Done(st'.visited, y) ensures MemoOk(v, m, st', orig, y) {
        if y == x {
          assert Unfolds(st'.nodes, Ref(x), t) && ResultOk(v, m, st', orig, st'.visited[x].result, Ref(x), t);
        } else {
          MemoOkGrows(v, m, st, st', orig, y);
        }
      }
    }
  }

  // ---------- whole runs ----------

  /** No pointer dangles and every id has been allocated. */
  ghost predicate Closed(g: Nodes, next: Id)
  {
    Allocated(g, next) && Inside(g, g.Keys)
  }

  /** `apply`: a visit of the root with an empty table. */
  function Run(v: Visitor, g: Nodes, next: Id, root: Ptr, d: nat): (State, Ptr)
  {
    Visit(v, State(g, next, map[], false), root, d)
  }

  /** The run raises nothing, and what it returns unfolds to `u`. */
  ghost predicate Yields(v: Visitor, g: Nodes, next: Id, root: Ptr, d: nat, u: Tree)
  {
    var (st, r) := Run(v, g, next, root, d);
    !st.bug && Unfolds(st.nodes, r, u)
  }

  /** The callbacks mean `m`, and in `t` it does not matter what is visited before what. */
  ghost predicate Sound(v: Visitor, m: Meaning, t: Tree)
  {
    Implements(v, m) && SoundBelow(v, m, t)
  }

  /** From any good table, with any room for the stack: unless it overflows, what is returned is a correct
      result. */
  lemma VisitOk(v: Visitor, m: Meaning, st: State, orig: set<Id>, n: Ptr, t: Tree, d: nat)
    requires Implements(v, m) && SoundBelow(v, m, t) && Good(v, m, st, orig) && Inside(st.nodes, orig)
    requires Above(st, orig, Height(t)) && Unfolds(st.nodes, n, t) && (n.Ref? ==> n.id in orig)
    ensures Visit(v, st, n, d).0.bug || VisitWell(v, m, st, orig, n, t, d)
    ensures d >= Need(m, t) ==> !Visit(v, st, n, d).0.bug
  {
    VisitInRoom(v, m, st, orig, n, t, Max(d, Need(m, t)));
    if !Visit(v, st, n, d).0.bug { MoreRoom(v, st, n, d, Max(d, Need(m, t))); }
  }

  /** For every acyclic IR, all deterministic callbacks and any room for the stack: unless it overflows, the
      graph a memoised traversal returns unfolds to the plain rewrite of the tree the input unfolds to; the
      input graph is left as it was; and if the callbacks change nothing the very same root comes back. */
  lemma MemoisedIsPlain(v: Visitor, m: Meaning, g: Nodes, next: Id, root: Ptr, t: Tree, d: nat)
    requires Sound(v, m, t) && Closed(g, next) && Unfolds(g, root, t)
    ensures var (st, r) := Run(v, g, next, root, d);
      st.bug || (SubGraph(g, st.nodes) && Unfolds(st.nodes, r, RewriteTree(m, t)) && (Untouched(v, m, t) ==> r == root))
    ensures d >= Need(m, t) ==> !Run(v, g, next, root, d).0.bug
  {
    VisitOk(v, m, State(g, next, map[], false), g.Keys, root, t, d);
  }

  /** However the graph is shared, two roots of one tree are rewritten to one tree. */
  lemma SharingIsInvisible(
    v: Visitor, m: Meaning, g: Nodes, next: Id, root: Ptr, d: nat, h: Nodes, next': Id, root': Ptr, d': nat, t: Tree)
    requires Sound(v, m, t) && Closed(g, next) && Unfolds(g, root, t) && Closed(h, next') && Unfolds(h, root', t)
    ensures var (st, r) := Run(v, g, next, root, d);
      var (st', r') := Run(v, h, next', root', d');
      st.bug || st'.bug || exists u :: Unfolds(st.nodes, r, u) && Unfolds(st'.nodes, r', u)
  {
    MemoisedIsPlain(v, m, g, next, root, t, d);
    MemoisedIsPlain(v, m, h, next', root', t, d');
  }
}
