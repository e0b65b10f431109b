/** What is known between two steps of a rewriting visitor, and how it grows. */
module RewriteState {
  import opened IRGraph
  import opened Rewrite

  /** `p` stands for itself from now on: visiting it again changes nothing. */
  ghost predicate Fixed(st: State, p: Ptr)
  {
    p.Null? || (Done(st.visited, p.id) && st.visited[p.id].result == p)
  }

  /** The table has `r` as the result for `n`. */
  ghost predicate Recorded(v: Visitor, st: State, n: Ptr, r: Ptr)
  {
    v.visitDagOnce && n.Ref? ==> Done(st.visited, n.id) && st.visited[n.id].result == r
  }

  /** Visiting `p`, which unfolds to `t`, gives `p` again: it is fixed, or a new node that has not been
      visited yet and that the callbacks keep.  `orig` holds the nodes of the original graph. */
  ghost predicate Idle(v: Visitor, m: Meaning, st: State, orig: set<Id>, p: Ptr, t: Tree)
    decreases t
  {
    || Fixed(st, p)
    || (&& p.Ref? && t.Tree? && p.id in st.nodes && |st.nodes[p.id].kids| == |t.kids|
        && p.id !in st.visited && p.id !in orig && (v.Forwards() ==> Kept(m, t))
        && forall i :: 0 <= i < |t.kids| ==> Idle(v, m, st, orig, st.nodes[p.id].kids[i].at, t.kids[i].at))
  }

  ghost predicate AllIdle(v: Visitor, m: Meaning, st: State, orig: set<Id>, ks: seq<Slot<Ptr>>, ts: seq<Slot<Tree>>)
  {
    |ks| == |ts|
    && forall i {:trigger Idle(v, m, st, orig, ks[i].at, ts[i].at)} ::
         0 <= i < |ts| ==> Idle(v, m, st, orig, ks[i].at, ts[i].at)
  }

  /** The elements of the vector `r`, which unfolds to `t`, can be visited again. */
  ghost predicate ElementsIdle(v: Visitor, m: Meaning, st: State, orig: set<Id>, r: Ptr, t: Tree)
  {
    IsVector(t) ==> r.Ref? && r.id in st.nodes && AllIdle(v, m, st, orig, st.nodes[r.id].kids, t.kids)
  }

  /** `r` is a correct result for the pointer `k`, which unfolds to `t`. */
  ghost predicate ResultOk(v: Visitor, m: Meaning, st: State, orig: set<Id>, r: Ptr, k: Ptr, t: Tree)
  {
    && Unfolds(st.nodes, r, RewriteTree(m, t))
    && (v.visitDagOnce ==> Fixed(st, r))
    && Recorded(v, st, k, r)
    && (Untouched(v, m, t) ==> r == k)
    && (v.visitDagOnce && Lasting(v, m, t) && RewriteTree(m, t) != t ==>
          ElementsIdle(v, m, st, orig, r, RewriteTree(m, t)))
  }

  ghost predicate MemoOk(v: Visitor, m: Meaning, st: State, orig: set<Id>, x: Id)
    requires x in st.visited
  {
    exists t :: Unfolds(st.nodes, Ref(x), t) && ResultOk(v, m, st, orig, st.visited[x].result, Ref(x), t)
  }

  ghost predicate Allocated(nodes: Nodes, next: Id)
  {
    forall y :: y in nodes ==> y < next
  }

  ghost predicate Basic(v: Visitor, st: State)
  {
    && st.visited.Keys <= st.nodes.Keys && !st.bug && Allocated(st.nodes, st.next)
    && (v.visitDagOnce ==> forall x: Id :: Done(st.visited, x) ==> Fixed(st, st.visited[x].result))
  }

  /** The state between two steps. */
  ghost predicate Good(v: Visitor, m: Meaning, st: State, orig: set<Id>)
  {
    && Basic(v, st) && orig <= st.nodes.Keys
    && (v.visitDagOnce ==> forall x: Id :: x in orig && Done(st.visited, x) ==> MemoOk(v, m, st, orig, x))
  }

  /** The original nodes point to original nodes. */
  ghost predicate Inside(nodes: Nodes, orig: set<Id>)
  {
    forall x :: x in orig && x in nodes ==> Within(nodes[x].kids, orig)
  }

  ghost predicate Within(ks: seq<Slot<Ptr>>, orig: set<Id>)
  {
    forall i :: 0 <= i < |ks| && ks[i].at.Ref? ==> ks[i].at.id in orig
  }

  /** Every original node on the visitor's stack unfolds to a tree higher than `k`. */
  ghost predicate Above(st: State, orig: set<Id>, k: int)
  {
    forall x :: x in orig && x in st.visited && st.visited[x].inProgress ==> StackEntry(st, x, k)
  }

  ghost predicate StackEntry(st: State, x: Id, k: int)
  {
    exists t :: Unfolds(st.nodes, Ref(x), t) && Height(t) > k
  }

  /** A node that is visited is an original one, one that is new since `next`, or a fixed one. */
  ghost predicate Accounted(orig: set<Id>, next: Id, visited: map<Id, VisitInfo>, x: Id)
    requires x in visited
  {
    x in orig || x >= next || visited[x] == VisitInfo(false, Ref(x))
  }

  /** Nothing that was finished or is in progress changes, and nothing stays in progress. */
  ghost predicate Extends(v: Visitor, orig: set<Id>, st: State, st': State)
  {
    && SubGraph(st.nodes, st'.nodes) && st.next <= st'.next
    && (forall x :: x in st'.nodes ==> x in st.nodes || x >= st.next)
    && (forall x :: x in st.visited ==> x in st'.visited)
    && (forall x :: x in st.visited && (st.visited[x].inProgress || v.visitDagOnce) ==>
          st'.visited[x] == st.visited[x])
    && (forall x :: x in st'.visited && st'.visited[x].inProgress ==> x in st.visited && st.visited[x].inProgress)
    && (v.visitDagOnce ==>
          forall x :: x in st'.visited && x !in st.visited ==> Accounted(orig, st.next, st'.visited, x))
  }

  // ---------- growth ----------

  lemma ExtendsTransitive(v: Visitor, orig: set<Id>, a: State, b: State, c: State)
    requires Extends(v, orig, a, b) && Extends(v, orig, b, c)
    ensures Extends(v, orig, a, c)
  {
    if v.visitDagOnce {
      forall x | x in c.visited && x !in a.visited ensures Accounted(orig, a.next, c.visited, x) {
        if x in b.visited { assert Accounted(orig, a.next, b.visited, x); }
        else { assert Accounted(orig, b.next, c.visited, x); }
      }
    }
  }

  /** What is done stays done, and whatever else is visited is accounted for. */
  ghost predicate Settles(orig: set<Id>, st: State, st': State)
  {
    && SubGraph(st.nodes, st'.nodes) && Allocated(st.nodes, st.next)
    && (forall x :: Done(st.visited, x) ==> x in st'.visited && st'.visited[x] == st.visited[x])
    && (forall x :: x in st'.visited && x !in st.visited ==> Accounted(orig, st.next, st'.visited, x))
  }

  lemma ExtendsSettles(v: Visitor, orig: set<Id>, st: State, st': State)
    requires Extends(v, orig, st, st') && v.visitDagOnce && Allocated(st.nodes, st.next)
    ensures Settles(orig, st, st')
  {}

  lemma {:induction false} IdleGrows(v: Visitor, m: Meaning, st: State, st': State, orig: set<Id>, p: Ptr, t: Tree)
    requires Settles(orig, st, st') && Idle(v, m, st, orig, p, t)
    ensures Idle(v, m, st', orig, p, t)
    decreases t
  {
    if !Fixed(st, p) {
      if p.id in st'.visited {
        assert Accounted(orig, st.next, st'.visited, p.id);
      } else {
        forall i | 0 <= i < |t.kids| ensures Idle(v, m, st', orig, st'.nodes[p.id].kids[i].at, t.kids[i].at) {
          IdleGrows(v, m, st, st', orig, st.nodes[p.id].kids[i].at, t.kids[i].at);
        }
      }
    }
  }

  lemma AllIdleGrows(
    v: Visitor, m: Meaning, st: State, st': State, orig: set<Id>, ks: seq<Slot<Ptr>>, ts: seq<Slot<Tree>>)
    requires Settles(orig, st, st') && AllIdle(v, m, st, orig, ks, ts)
    ensures AllIdle(v, m, st', orig, ks, ts)
  {
    forall i | 0 <= i < |ts| ensures Idle(v, m, st', orig, ks[i].at, ts[i].at) {
      IdleGrows(v, m, st, st', orig, ks[i].at, ts[i].at);
    }
  }

  lemma ElementsGrow(v: Visitor, m: Meaning, st: State, st': State, orig: set<Id>, r: Ptr, t: Tree)
    requires Settles(orig, st, st') && ElementsIdle(v, m, st, orig, r, t)
    ensures ElementsIdle(v, m, st', orig, r, t)
  {
    if IsVector(t) { AllIdleGrows(v, m, st, st', orig, st.nodes[r.id].kids, t.kids); }
  }

  /** A memo entry stays correct when its own entry is kept and the graph grows. */
  lemma MemoOkGrows(v: Visitor, m: Meaning, st: State, st': State, orig: set<Id>, y: Id)
    requires v.visitDagOnce && Basic(v, st) && Settles(orig, st, st')
    requires Done(st.visited, y) && MemoOk(v, m, st, orig, y)
    ensures Done(st'.visited, y) && MemoOk(v, m, st', orig, y)
  {
    var r := st.visited[y].result;
    var ty :| Unfolds(st.nodes, Ref(y), ty) && ResultOk(v, m, st, orig, r, Ref(y), ty);
    UnfoldsGrows(st.nodes, st'.nodes, Ref(y), ty);
    UnfoldsGrows(st.nodes, st'.nodes, r, RewriteTree(m, ty));
    assert Fixed(st, r);
    if Lasting(v, m, ty) && RewriteTree(m, ty) != ty { ElementsGrow(v, m, st, st', orig, r, RewriteTree(m, ty)); }
    assert ResultOk(v, m, st', orig, r, Ref(y), ty);
  }

  lemma GoodGrows(v: Visitor, m: Meaning, st: State, st': State, orig: set<Id>)
    requires Good(v, m, st, orig) && Basic(v, st') && SubGraph(st.nodes, st'.nodes)
    requires v.visitDagOnce ==> Settles(orig, st, st')
    requires v.visitDagOnce ==> forall x :: x in orig && Done(st'.visited, x) ==> Done(st.visited, x)
    ensures Good(v, m, st', orig)
  {
    if v.visitDagOnce {
      forall x: Id | x in orig && Done(st'.visited, x) ensures MemoOk(v, m, st', orig, x) {
        MemoOkGrows(v, m, st, st', orig, x);
      }
    }
  }

  lemma AboveGrows(v: Visitor, orig: set<Id>, st: State, st': State, k: int)
    requires Extends(v, orig, st, st') && Above(st, orig, k)
    ensures Above(st', orig, k)
  {
    forall x | x in orig && x in st'.visited && st'.visited[x].inProgress ensures StackEntry(st', x, k) {
      assert StackEntry(st, x, k);
      var t :| Unfolds(st.nodes, Ref(x), t) && Height(t) > k;
      UnfoldsGrows(st.nodes, st'.nodes, Ref(x), t);
    }
  }

  lemma AboveWeaker(st: State, orig: set<Id>, k: int, l: int)
    requires Above(st, orig, k) && l <= k
    ensures Above(st, orig, l)
  {
    forall x | x in orig && x in st.visited && st.visited[x].inProgress ensures StackEntry(st, x, l) {
      assert StackEntry(st, x, k);
    }
  }

  lemma {:induction false} InsideGrows(nodes: Nodes, nodes': Nodes, orig: set<Id>)
    requires Inside(nodes, orig) && SubGraph(nodes, nodes') && orig <= nodes.Keys
    ensures Inside(nodes', orig)
  {}
}
