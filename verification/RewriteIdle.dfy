/** Visiting again what the callbacks keep: everything stays as it is. */
module RewriteIdle {
  import opened IRGraph
  import opened Rewrite
  import opened RewriteState

  /** A forwarded child is in its own place if it is idle. */
  lemma {:induction false} ForwardIdle(
    v: Visitor, m: Meaning, st: State, orig: set<Id>, x: Id, ks: seq<Slot<Ptr>>, ts: seq<Slot<Tree>>)
    requires AllIdle(v, m, st, orig, ks, ts) && x !in st.visited
    ensures Forward(st.nodes, Started(st.visited, x), ks) == ks
  {
    if ks != [] {
      forall i | 0 <= i < |ks| - 1 ensures Idle(v, m, st, orig, ks[1..][i].at, ts[1..][i].at) {
        assert Idle(v, m, st, orig, ks[i + 1].at, ts[i + 1].at);
      }
      ForwardIdle(v, m, st, orig, x, ks[1..], ts[1..]);
      assert Idle(v, m, st, orig, ks[0].at, ts[0].at);
      assert Known(Started(st.visited, x), ks[0].at) == ks[0].at;
      assert [ks[0]] + ks[1..] == ks;
    }
  }

  /** Starting a node leaves those below it idle. */
  lemma {:induction false} IdleBeside(
    v: Visitor, m: Meaning, st: State, orig: set<Id>, x: Id, t: Tree, p: Ptr, u: Tree, next: Id)
    requires Idle(v, m, st, orig, p, u) && Unfolds(st.nodes, p, u) && Unfolds(st.nodes, Ref(x), t)
    requires Height(u) < Height(t) && x !in st.visited
    ensures Idle(v, m, State(st.nodes, next, Started(st.visited, x), st.bug), orig, p, u)
    decreases u
  {
    if !Fixed(st, p) {
      if p.id == x { UnfoldsUnique(st.nodes, p, t, u); }
      forall i | 0 <= i < |u.kids|
        ensures Idle(v, m, State(st.nodes, next, Started(st.visited, x), st.bug), orig, st.nodes[p.id].kids[i].at,
          u.kids[i].at)
      {
        HeightOfKid(u.kids, i);
        IdleBeside(v, m, st, orig, x, t, st.nodes[p.id].kids[i].at, u.kids[i].at, next);
      }
    }
  }

  /** No original node is visited. */
  ghost predicate Quiet(orig: set<Id>, st: State, st': State)
  {
    forall x :: x in st'.visited && x !in st.visited ==> x !in orig
  }

  lemma {:induction false} IdleOk(v: Visitor, m: Meaning, st: State, orig: set<Id>, p: Ptr, t: Tree, d: nat)
    requires v.Forwards() && Implements(v, m) && Basic(v, st) && d >= Height(t)
    requires Unfolds(st.nodes, p, t) && Idle(v, m, st, orig, p, t)
    ensures (var (st', r) := Visit(v, st, p, d);
      r == p && Extends(v, orig, st, st') && Quiet(orig, st, st') && Basic(v, st') && Fixed(st', p))
    decreases t, 1
  {
    if !Fixed(st, p) {
      var x := p.id;
      IdleAsked(v, m, st, orig, x, t);
      var go := m.pre(t, t);
      var (st1, f) := Open(v, st, x, go);
      if go.prune {
        IdleClosed(v, m, st, st1, orig, x, f);
      } else {
        var (st2, g) := Revisited(v, st, x, go, d);
        IdleRevisited(v, m, st, orig, x, t, d);
        UnfoldsGrows(st.nodes, st2.nodes, p, t);
        UnfoldsNode(st2.nodes, p, t);
        assert Tree(t.tag, t.kids) == t;
        assert v.post(st2.nodes, st.nodes[x], g.copy) == m.post(t, t);
        IdlePlanted(st2, g, t.kids);
        IdleClosed(v, m, st, st2, orig, x, g);
      }
    }
  }

  /** An idle node is cloned as it is, and preorder keeps it. */
  lemma IdleAsked(v: Visitor, m: Meaning, st: State, orig: set<Id>, x: Id, t: Tree)
    requires v.Forwards() && Implements(v, m) && Unfolds(st.nodes, Ref(x), t)
    requires Idle(v, m, st, orig, Ref(x), t) && !Fixed(st, Ref(x))
    ensures Cloned(v, st, x) == st.nodes[x] && Asked(v, st, x) == m.pre(t, t)
    ensures (var go := m.pre(t, t);
      && go.Go? && !go.anew && (go.prune || m.post(t, t) == Build(t.tag, Olds(t.kids), false))
      && Open(v, st, x, go) == (State(st.nodes, st.next + 1, st.visited[x := VisitInfo(true, Ref(x))], st.bug),
                                Frame(st.next, st.next, st.nodes[x])))
  {
    UnfoldsNode(st.nodes, Ref(x), t);
    ForwardIdle(v, m, st, orig, x, st.nodes[x].kids, t.kids);
    assert Cloned(v, st, x) == st.nodes[x];
    assert Tree(t.tag, t.kids) == t;
    PickIota(st.nodes[x].kids, NULL);
  }

  lemma {:induction false} IdleRevisited(v: Visitor, m: Meaning, st: State, orig: set<Id>, x: Id, t: Tree, d: nat)
    requires v.Forwards() && Implements(v, m) && Basic(v, st) && d >= Height(t)
    requires Unfolds(st.nodes, Ref(x), t) && Idle(v, m, st, orig, Ref(x), t) && !Fixed(st, Ref(x))
    ensures m.pre(t, t).Go?
    ensures (var st1 := Open(v, st, x, m.pre(t, t)).0;
      var (st2, f) := Revisited(v, st, x, m.pre(t, t), d);
      && f == Frame(st.next, st.next, st.nodes[x])
      && Extends(v, orig, st1, st2) && Quiet(orig, st1, st2) && Basic(v, st2))
    decreases t, 0
  {
    IdleAsked(v, m, st, orig, x, t);
    IdleOpened(v, m, st, orig, x, t, d);
    AllIdleOk(v, m, State(st.nodes, st.next + 1, Started(st.visited, x), st.bug), orig, st.nodes[x].kids, t.kids,
      d - 1);
  }

  /** The node is started, and its children are still idle. */
  lemma IdleOpened(v: Visitor, m: Meaning, st: State, orig: set<Id>, x: Id, t: Tree, d: nat)
    requires v.Forwards() && Basic(v, st) && d >= Height(t)
    requires Unfolds(st.nodes, Ref(x), t) && Idle(v, m, st, orig, Ref(x), t) && !Fixed(st, Ref(x))
    ensures (var st1 := State(st.nodes, st.next + 1, Started(st.visited, x), st.bug);
      && Basic(v, st1) && UnfoldsAll(st1.nodes, st.nodes[x].kids, t.kids)
      && AllIdle(v, m, st1, orig, st.nodes[x].kids, t.kids))
    ensures forall i :: 0 <= i < |t.kids| ==> d - 1 >= Height(t.kids[i].at)
  {
    var st1, ks := State(st.nodes, st.next + 1, Started(st.visited, x), st.bug), st.nodes[x].kids;
    UnfoldsNode(st.nodes, Ref(x), t);
    forall i | 0 <= i < |ks| ensures Idle(v, m, st1, orig, ks[i].at, t.kids[i].at) && d - 1 >= Height(t.kids[i].at) {
      HeightOfKid(t.kids, i);
      assert UnfoldsAt(st.nodes, ks[i], t.kids[i]);
      IdleBeside(v, m, st, orig, x, t, ks[i].at, t.kids[i].at, st1.next);
    }
    forall y: Id | Done(st1.visited, y) ensures Fixed(st1, st1.visited[y].result) {
      assert Fixed(st, st.visited[y].result);
    }
  }

  /** A visit of `ks` returns them as they are. */
  ghost predicate AllStay(v: Visitor, st: State, orig: set<Id>, ks: seq<Slot<Ptr>>, d: nat)
  {
    var (st', rs) := VisitAll(v, st, ks, d);
    rs == ks && Extends(v, orig, st, st') && Quiet(orig, st, st') && Basic(v, st')
  }

  lemma {:induction false} AllIdleOk(
    v: Visitor, m: Meaning, st: State, orig: set<Id>, ks: seq<Slot<Ptr>>, ts: seq<Slot<Tree>>, d: nat)
    requires v.Forwards() && Implements(v, m) && Basic(v, st)
    requires UnfoldsAll(st.nodes, ks, ts) && AllIdle(v, m, st, orig, ks, ts)
    requires forall i :: 0 <= i < |ts| ==> d >= Height(ts[i].at)
    ensures AllStay(v, st, orig, ks, d)
    decreases ts, 2
  {
    if ks != [] {
      var st1 := Visit(v, st, ks[0].at, d).0;
      FirstIdle(v, m, st, orig, ks, ts, d);
      AllIdleOk(v, m, st1, orig, ks[1..], ts[1..], d);
      ExtendsTransitive(v, orig, st, st1, VisitAll(v, st1, ks[1..], d).0);
      assert [ks[0]] + ks[1..] == ks;
    }
  }

  lemma {:induction false} FirstIdle(
    v: Visitor, m: Meaning, st: State, orig: set<Id>, ks: seq<Slot<Ptr>>, ts: seq<Slot<Tree>>, d: nat)
    requires v.Forwards() && Implements(v, m) && Basic(v, st) && ks != []
    requires UnfoldsAll(st.nodes, ks, ts) && AllIdle(v, m, st, orig, ks, ts) && d >= Height(ts[0].at)
    ensures var (st1, r) := Visit(v, st, ks[0].at, d);
      && r == ks[0].at && Extends(v, orig, st, st1) && Quiet(orig, st, st1) && Basic(v, st1)
      && UnfoldsAll(st1.nodes, ks[1..], ts[1..]) && AllIdle(v, m, st1, orig, ks[1..], ts[1..])
    decreases ts, 1
  {
    assert ts[0].at < ts[0];
    assert UnfoldsAt(st.nodes, ks[0], ts[0]) && Idle(v, m, st, orig, ks[0].at, ts[0].at);
    IdleOk(v, m, st, orig, ks[0].at, ts[0].at, d);
    var st1 := Visit(v, st, ks[0].at, d).0;
    ExtendsSettles(v, orig, st, st1);
    AllIdleGrows(v, m, st, st1, orig, ks, ts);
    UnfoldsAllGrows(st.nodes, st1.nodes, ks, ts);
    TailIdle(v, m, st1, orig, ks, ts);
  }

  lemma TailIdle(v: Visitor, m: Meaning, st: State, orig: set<Id>, ks: seq<Slot<Ptr>>, ts: seq<Slot<Tree>>)
    requires AllIdle(v, m, st, orig, ks, ts) && UnfoldsAll(st.nodes, ks, ts) && ks != []
    ensures AllIdle(v, m, st, orig, ks[1..], ts[1..]) && UnfoldsAll(st.nodes, ks[1..], ts[1..])
  {
    forall i | 0 <= i < |ts| - 1
      ensures Idle(v, m, st, orig, ks[1..][i].at, ts[1..][i].at) && UnfoldsAt(st.nodes, ks[1..][i], ts[1..][i])
    {
      assert Idle(v, m, st, orig, ks[i + 1].at, ts[i + 1].at) && UnfoldsAt(st.nodes, ks[i + 1], ts[i + 1]);
    }
  }

  /** Old children alone allocate nothing. */
  lemma {:induction false} PlantOldsFrom(
    nodes: Nodes, next: Id, fs: seq<Slot<Template>>, ks: seq<Slot<Ptr>>, i: nat)
    requires i + |fs| == |ks| && forall k :: 0 <= k < |fs| ==> fs[k] == Slot(ks[i + k].kind, Old(i + k))
    ensures PlantAll(nodes, next, fs, ks) == Planted(nodes, next, ks[i..])
    decreases |fs|
  {
    if fs != [] {
      PlantOldsFrom(nodes, next, fs[1..], ks, i + 1);
      assert fs[0] == Slot(ks[i].kind, Old(i)) && ks[i..] == [ks[i]] + ks[i + 1..];
    }
  }

  lemma PlantOlds(nodes: Nodes, next: Id, ks: seq<Slot<Ptr>>)
    ensures PlantAll(nodes, next, Olds(ks), ks) == Planted(nodes, next, ks)
  {
    PlantOldsFrom(nodes, next, Olds(ks), ks, 0);
    assert ks[0..] == ks;
  }

  lemma IdlePlanted(st: State, f: Frame, ts: seq<Slot<Tree>>)
    requires UnfoldsAll(st.nodes, f.copy.kids, ts)
    ensures Postordered(st, f, Build(f.copy.tag, Olds(ts), false)) == (Commit(st, f, f.copy), Ref(f.clone))
  {
    forall i | 0 <= i < |ts|
      ensures f.copy.kids[i].kind == ts[i].kind { assert UnfoldsAt(st.nodes, f.copy.kids[i], ts[i]); }
    assert Olds(ts) == Olds(f.copy.kids);
    PlantOlds(st.nodes, st.next, f.copy.kids);
  }

  /** The visit of `x`, begun in `st`, ends with a clone that is like `x`: `x` itself is returned. */
  lemma IdleClosed(v: Visitor, m: Meaning, st: State, st2: State, orig: set<Id>, x: Id, f: Frame)
    requires v.Forwards() && Basic(v, st) && Basic(v, st2) && x in st.nodes && x !in st.visited && x !in orig
    requires (var st1 := State(st.nodes, st.next + 1, st.visited[x := VisitInfo(true, Ref(x))], st.bug);
      Extends(v, orig, st1, st2) && Quiet(orig, st1, st2))
    requires f == Frame(st.next, st.next, st.nodes[x])
    ensures x in st2.visited
    ensures (var (st', r) := Close(Commit(st2, f, f.copy), x, f, Ref(f.clone));
      r == Ref(x) && Extends(v, orig, st, st') && Quiet(orig, st, st') && Basic(v, st') && Fixed(st', Ref(x)))
  {
    var st1 := State(st.nodes, st.next + 1, st.visited[x := VisitInfo(true, Ref(x))], st.bug);
    var (st', r) := Close(Commit(st2, f, f.copy), x, f, Ref(f.clone));
    assert st'.visited == st2.visited[x := VisitInfo(false, Ref(x))];
    forall y | y in st'.visited && y !in st.visited ensures Accounted(orig, st.next, st'.visited, y) {
      if y != x { assert Accounted(orig, st1.next, st2.visited, y); }
    }
    forall y: Id | Done(st'.visited, y) ensures Fixed(st', st'.visited[y].result) {
      if y != x { assert Fixed(st2, st2.visited[y].result); }
    }
  }
}
