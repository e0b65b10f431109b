/** What holds of every visit, whatever the callbacks do. */
module RewriteKeeps {
  import opened IRGraph
  import opened Rewrite
  import opened RewriteState
  import opened RewriteProof

  // ---------- the input graph is left as it was ----------

  /** Nodes are only added, under ids that have not been given out. */
  ghost predicate Adds(st: State, st': State)
  {
    && SubGraph(st.nodes, st'.nodes) && Allocated(st'.nodes, st'.next) && st.next <= st'.next
    && forall y :: y in st'.nodes ==> y in st.nodes || y >= st.next
  }

  lemma {:induction false} PlantAdds(nodes: Nodes, next: Id, f: Template, ks: seq<Slot<Ptr>>)
    requires Allocated(nodes, next)
    ensures (var r := Plant(nodes, next, f, ks);
      && SubGraph(nodes, r.nodes) && Allocated(r.nodes, r.next)
      && forall y :: y in r.nodes ==> y in nodes || y >= next)
    decreases f, 0
  {
    if f.New? { PlantAllAdds(nodes, next, f.fields, ks); }
  }

  lemma {:induction false} PlantAllAdds(nodes: Nodes, next: Id, fs: seq<Slot<Template>>, ks: seq<Slot<Ptr>>)
    requires Allocated(nodes, next)
    ensures (var r := PlantAll(nodes, next, fs, ks);
      && SubGraph(nodes, r.nodes) && Allocated(r.nodes, r.next)
      && forall y :: y in r.nodes ==> y in nodes || y >= next)
    decreases fs, 1
  {
    if fs != [] {
      assert fs[0].at < fs[0];
      PlantAdds(nodes, next, fs[0].at, ks);
      var first := Plant(nodes, next, fs[0].at, ks);
      PlantAllAdds(first.nodes, first.next, fs[1..], ks);
    }
  }

  /** Postorder adds the clone and what it builds. */
  lemma PostorderedAdds(st: State, f: Frame, act: PostAction)
    requires Allocated(st.nodes, st.next) && f.clone < st.next && f.clone !in st.nodes
    ensures (var (st', _) := Postordered(st, f, act);
      && SubGraph(st.nodes, st'.nodes) && Allocated(st'.nodes, st'.next) && st.next <= st'.next
      && forall y :: y in st'.nodes ==> y in st.nodes || y >= st.next || y == f.clone)
  {
    if act.Build? { PlantAllAdds(st.nodes, st.next, act.fields, f.copy.kids); }
  }

  /** A visit leaves all nodes as they are. */
  lemma {:induction false} VisitAdds(v: Visitor, st: State, n: Ptr, d: nat)
    requires Allocated(st.nodes, st.next)
    ensures Adds(st, Visit(v, st, n, d).0)
    decreases d, 1
  {
    if n.Ref? && n.id in st.nodes && d > 0 && Asked(v, st, n.id).Go? {
      VisitedAdds(v, st, n.id, d);
    }
  }

  lemma {:induction false} VisitedAdds(v: Visitor, st: State, x: Id, d: nat)
    requires Allocated(st.nodes, st.next) && x in st.nodes && Asked(v, st, x).Go? && d > 0
    ensures Adds(st, Visited(v, st, x, d).0)
    decreases d, 0
  {
    var go := Asked(v, st, x);
    var (st1, f) := Open(v, st, x, go);
    if !go.prune {
      VisitAllAdds(v, st1, f.copy.kids, d - 1);
      RevisitedAdds(v, st, x, go, d);
      var (st2, g) := Revisited(v, st, x, go, d);
      PostorderedAdds(st2, g, v.post(st2.nodes, st.nodes[x], g.copy));
    }
  }

  lemma RevisitedAdds(v: Visitor, st: State, x: Id, go: PreAction, d: nat)
    requires Allocated(st.nodes, st.next) && x in st.nodes && go.Go? && d > 0
    requires (var (st1, f) := Open(v, st, x, go);
      Adds(st1, VisitAll(v, st1, f.copy.kids, d - 1).0))
    ensures (var (st2, g) := Revisited(v, st, x, go, d);
      Adds(st, st2) && st.next <= g.clone < st2.next && g.clone !in st2.nodes)
  {}

  lemma {:induction false} VisitAllAdds(v: Visitor, st: State, ks: seq<Slot<Ptr>>, d: nat)
    requires Allocated(st.nodes, st.next)
    ensures Adds(st, VisitAll(v, st, ks, d).0)
    decreases d, 2, |ks|
  {
    if ks != [] {
      VisitAdds(v, st, ks[0].at, d);
      VisitAllAdds(v, Visit(v, st, ks[0].at, d).0, ks[1..], d);
    }
  }

  /** Whatever the callbacks do, a run leaves the graph it is given as it was. */
  lemma InputIsKept(v: Visitor, g: Nodes, next: Id, root: Ptr, d: nat)
    requires Allocated(g, next)
    ensures SubGraph(g, Run(v, g, next, root, d).0.nodes)
  {
    VisitAdds(v, State(g, next, map[], false), root, d);
  }

  // ---------- one result for a shared node ----------

  ghost predicate PtrIn(p: Ptr, next: Id, shut: set<Id>)
  {
    p.Ref? ==> p.id < next && p.id !in shut
  }

  ghost predicate PtrsIn(ks: seq<Slot<Ptr>>, next: Id, shut: set<Id>)
  {
    forall i :: 0 <= i < |ks| ==> PtrIn(ks[i].at, next, shut)
  }

  /** Every id in use has been allocated, and nothing leads to the nodes in `shut` but those themselves. */
  ghost predicate Tidy(st: State, shut: set<Id>)
  {
    && (forall x :: x in shut ==> x < st.next)
    && (forall x :: x in st.nodes ==> x < st.next && (x in shut || PtrsIn(st.nodes[x].kids, st.next, shut)))
    && (forall x :: x in st.visited ==> x < st.next && (x in shut || PtrIn(st.visited[x].result, st.next, shut)))
  }

  /** `st'` is as tidy as `st`, has all of its entries, and has visited nothing in `shut`. */
  ghost predicate Keeps(st: State, st': State, shut: set<Id>)
  {
    && Tidy(st', shut) && st.next <= st'.next && (forall x :: x in st.nodes ==> x in st'.nodes)
    && (forall y :: y in st.visited ==> y in st'.visited && st'.visited[y] == st.visited[y])
    && (forall y :: y in st'.visited && y !in st.visited ==> y !in shut)
  }

  lemma {:induction false} PlantTidy(
    nodes: Nodes, next: Id, f: Template, ks: seq<Slot<Ptr>>, visited: map<Id, VisitInfo>, shut: set<Id>)
    requires Tidy(State(nodes, next, visited, false), shut) && PtrsIn(ks, next, shut)
    ensures (var r := Plant(nodes, next, f, ks);
      && Tidy(State(r.nodes, r.next, visited, false), shut) && PtrIn(r.value, r.next, shut)
      && forall x :: x in nodes ==> x in r.nodes)
    decreases f, 0
  {
    if f.New? { PlantAllTidy(nodes, next, f.fields, ks, visited, shut); }
  }

  lemma {:induction false} PlantAllTidy(
    nodes: Nodes, next: Id, fs: seq<Slot<Template>>, ks: seq<Slot<Ptr>>, visited: map<Id, VisitInfo>, shut: set<Id>)
    requires Tidy(State(nodes, next, visited, false), shut) && PtrsIn(ks, next, shut)
    ensures (var r := PlantAll(nodes, next, fs, ks);
      && Tidy(State(r.nodes, r.next, visited, false), shut) && PtrsIn(r.value, r.next, shut)
      && forall x :: x in nodes ==> x in r.nodes)
    decreases fs, 1
  {
    if fs != [] {
      assert fs[0].at < fs[0];
      PlantTidy(nodes, next, fs[0].at, ks, visited, shut);
      var first := Plant(nodes, next, fs[0].at, ks);
      PlantAllTidy(first.nodes, first.next, fs[1..], ks, visited, shut);
    }
  }

  lemma PostorderedTidy(st: State, f: Frame, act: PostAction, shut: set<Id>)
    requires Tidy(st, shut) && f.clone < st.next && f.clone !in shut && PtrsIn(f.copy.kids, st.next, shut)
    ensures (var (st', final) := Postordered(st, f, act);
      Keeps(st, st', shut) && st'.visited == st.visited && PtrIn(final, st'.next, shut))
  {
    if act.Build? { PlantAllTidy(st.nodes, st.next, act.fields, f.copy.kids, st.visited, shut); }
  }

  lemma PieceTidy(st: State, s: Slot<Ptr>, r: Ptr, shut: set<Id>)
    requires Tidy(st, shut) && PtrIn(r, st.next, shut)
    ensures PtrsIn(Piece(st.nodes, s, r), st.next, shut)
  {
    if s.kind.Elem? && r != s.at && r.Ref? && r.id in st.nodes && st.nodes[r.id].tag.vector {
      assert PtrsIn(st.nodes[r.id].kids, st.next, shut);
    }
  }

  lemma {:induction false} ForwardTidy(st: State, visited: map<Id, VisitInfo>, ks: seq<Slot<Ptr>>, shut: set<Id>)
    requires Tidy(st, shut) && PtrsIn(ks, st.next, shut)
    requires forall x :: x in visited ==> x in shut || PtrIn(visited[x].result, st.next, shut)
    ensures PtrsIn(Forward(st.nodes, visited, ks), st.next, shut)
  {
    if ks != [] {
      assert PtrIn(ks[0].at, st.next, shut);
      PieceTidy(st, ks[0], Known(visited, ks[0].at), shut);
      forall i | 0 <= i < |ks| - 1
        ensures PtrIn(ks[1..][i].at, st.next, shut) { assert PtrIn(ks[i + 1].at, st.next, shut); }
      ForwardTidy(st, visited, ks[1..], shut);
      InAppend(Piece(st.nodes, ks[0], Known(visited, ks[0].at)), Forward(st.nodes, visited, ks[1..]), st.next, shut);
    }
  }

  lemma InAppend(ks: seq<Slot<Ptr>>, ls: seq<Slot<Ptr>>, next: Id, shut: set<Id>)
    requires PtrsIn(ks, next, shut) && PtrsIn(ls, next, shut)
    ensures PtrsIn(ks + ls, next, shut)
  {}

  lemma OpenTidy(v: Visitor, st: State, x: Id, go: PreAction, shut: set<Id>)
    requires Tidy(st, shut) && x in st.nodes && x !in st.visited && x !in shut && go.Go?
    ensures (var (st1, f) := Open(v, st, x, go);
      && Keeps(st, st1, shut) && PtrsIn(f.copy.kids, st1.next, shut) && f.clone < st1.next && f.clone !in shut
      && st.next <= f.standIn < st1.next
      && x in st1.visited && st1.visited[x] == VisitInfo(true, Ref(x))
      && (f.standIn != f.clone ==> f.standIn in st1.visited))
  {
    ClonedTidy(v, st, x, shut);
  }

  lemma ClonedTidy(v: Visitor, st: State, x: Id, shut: set<Id>)
    requires Tidy(st, shut) && x in st.nodes && x !in shut
    ensures PtrsIn(Cloned(v, st, x).kids, st.next, shut)
  {
    assert PtrsIn(st.nodes[x].kids, st.next, shut);
    if v.Forwards() { ForwardTidy(st, Started(st.visited, x), st.nodes[x].kids, shut); }
  }

  lemma CloseTidy(st: State, st3: State, x: Id, f: Frame, final: Ptr, shut: set<Id>)
    requires Tidy(st, shut) && x !in st.visited && x !in shut && Keeps(st, st3, shut)
      && PtrIn(final, st3.next, shut) && x < st.next
    requires x in st3.visited && st3.visited[x] == VisitInfo(true, Ref(x)) && st.next <= f.standIn < st3.next
    requires f.standIn != f.clone ==> f.standIn in st3.visited
    ensures (var (st', r) := Close(st3, x, f, final);
      && Keeps(st, st', shut) && PtrIn(r, st'.next, shut) && Done(st'.visited, x) && st'.visited[x].result == r)
  {
    ClosedEntries(st3, x, f, Settled(st3.nodes, f.standIn, final));
  }

  /** A visit leaves the entries there were, and makes one for its node. */
  lemma {:induction false} VisitKeeps(v: Visitor, st: State, n: Ptr, d: nat, shut: set<Id>)
    requires v.visitDagOnce && Tidy(st, shut) && PtrIn(n, st.next, shut)
    ensures (var (st', r) := Visit(v, st, n, d);
      && Keeps(st, st', shut) && PtrIn(r, st'.next, shut)
      && (d > 0 && n.Ref? && n.id in st.nodes && (n.id in st.visited ==> !st.visited[n.id].inProgress) ==>
            Recorded(v, st', n, r)))
    decreases d, 2
  {
    if n.Ref? && n.id in st.nodes && n.id !in st.visited && d > 0 {
      if Asked(v, st, n.id).Go? { VisitNewKeeps(v, st, n.id, d, shut); }
    }
  }

  lemma {:induction false} VisitNewKeeps(v: Visitor, st: State, x: Id, d: nat, shut: set<Id>)
    requires v.visitDagOnce && Tidy(st, shut) && x in st.nodes && x !in st.visited && x !in shut && d > 0
    requires Asked(v, st, x).Go?
    ensures (var (st', r) := Visit(v, st, Ref(x), d);
      Keeps(st, st', shut) && PtrIn(r, st'.next, shut) && Recorded(v, st', Ref(x), r))
    decreases d, 1
  {
    VisitedKeeps(v, st, x, d, shut);
    VisitSteps(v, st, x, d);
    var (st3, f, final) := Visited(v, st, x, d);
    CloseTidy(st, st3, x, f, final, shut);
  }

  lemma {:induction false} VisitedKeeps(v: Visitor, st: State, x: Id, d: nat, shut: set<Id>)
    requires v.visitDagOnce && Tidy(st, shut) && x in st.nodes && x !in st.visited && x !in shut && d > 0
    requires Asked(v, st, x).Go?
    ensures (var (st3, f, final) := Visited(v, st, x, d);
      && Keeps(st, st3, shut) && PtrIn(final, st3.next, shut) && st3.visited[x] == VisitInfo(true, Ref(x))
      && st.next <= f.standIn < st3.next)
    decreases d, 0
  {
    var go := Asked(v, st, x);
    OpenTidy(v, st, x, go, shut);
    var (st1, f) := Open(v, st, x, go);
    if !go.prune {
      VisitAllKeeps(v, st1, f.copy.kids, d - 1, shut);
      var (st2, g) := Revisited(v, st, x, go, d);
      PostorderedTidy(st2, g, v.post(st2.nodes, st.nodes[x], g.copy), shut);
    }
  }

  lemma {:induction false} VisitAllKeeps(v: Visitor, st: State, ks: seq<Slot<Ptr>>, d: nat, shut: set<Id>)
    requires v.visitDagOnce && Tidy(st, shut) && PtrsIn(ks, st.next, shut)
    ensures (var (st', rs) := VisitAll(v, st, ks, d);
      Keeps(st, st', shut) && PtrsIn(rs, st'.next, shut))
    decreases d, 3, |ks|
  {
    if ks != [] {
      assert PtrIn(ks[0].at, st.next, shut);
      VisitKeeps(v, st, ks[0].at, d, shut);
      var (st1, r) := Visit(v, st, ks[0].at, d);
      PieceTidy(st1, ks[0], r, shut);
      forall i | 0 <= i < |ks| - 1
        ensures PtrIn(ks[1..][i].at, st1.next, shut) { assert PtrIn(ks[i + 1].at, st.next, shut); }
      VisitAllKeeps(v, st1, ks[1..], d, shut);
      var (st2, rest) := VisitAll(v, st1, ks[1..], d);
      InAppend(Piece(st1.nodes, ks[0], r), rest, st2.next, shut);
    }
  }

  /** What is met has an entry. */
  lemma VisitMeets(v: Visitor, st: State, n: Ptr, d: nat)
    requires d > 0 && n.Ref? && n.id in st.nodes
    ensures n.id in Visit(v, st, n, d).0.visited
  {}

  lemma {:induction false} VisitAllMeets(v: Visitor, st: State, ks: seq<Slot<Ptr>>, d: nat, i: nat)
    requires d > 0 && i < |ks| && ks[i].at.Ref? && ks[i].at.id in st.nodes && Allocated(st.nodes, st.next)
    ensures ks[i].at.id in VisitAll(v, st, ks, d).0.visited
    decreases |ks|
  {
    if i == 0 {
      VisitMeets(v, st, ks[0].at, d);
    } else {
      VisitAdds(v, st, ks[0].at, d);
      VisitAllMeets(v, Visit(v, st, ks[0].at, d).0, ks[1..], d, i - 1);
    }
  }

  /** A shared node has one result: whatever the callbacks do and whatever is visited in between,
      meeting `x` again returns the pointer it was given the first time and touches nothing. */
  lemma SharedOnce(v: Visitor, st: State, x: Id, d: nat, later: State, e: nat)
    requires v.visitDagOnce && Tidy(st, {}) && x in st.nodes && (x in st.visited ==> !st.visited[x].inProgress) && d > 0
    requires Keeps(Visit(v, st, Ref(x), d).0, later, {}) && e > 0
    ensures Visit(v, later, Ref(x), e) == (later, Visit(v, st, Ref(x), d).1)
  {
    VisitKeeps(v, st, Ref(x), d, {});
  }
}
