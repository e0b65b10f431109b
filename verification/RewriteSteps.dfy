/** The steps of one visit: what the children of a clone hold, what is allocated, how a visit begins. */
module RewriteSteps {
  import opened IRGraph
  import opened Rewrite
  import opened RewriteState
  import opened RewriteIdle

  /** How deep the stack of visited nodes can get. */
  ghost function Need(m: Meaning, t: Tree): (n: nat)
    decreases t
  {
    if t.Nil? then 0 else 1 + NeedAll(m, t.kids)
  }

  ghost function NeedAll(m: Meaning, ts: seq<Slot<Tree>>): nat
    decreases ts
  {
    if ts == [] then 0
    else
      assert ts[0].at < ts[0];
      Max(Max(Need(m, ts[0].at), Height(RewriteTree(m, ts[0].at))), NeedAll(m, ts[1..]))
  }

  lemma {:induction false} NeedOfKid(m: Meaning, ts: seq<Slot<Tree>>, i: nat)
    requires i < |ts|
    ensures NeedAll(m, ts) >= Need(m, ts[i].at) && NeedAll(m, ts) >= Height(RewriteTree(m, ts[i].at))
  {
    if i > 0 {
      assert ts[1..][i - 1] == ts[i];
      NeedOfKid(m, ts[1..], i - 1);
    }
  }

  // ---------- what a child of a clone holds ----------

  /** An original pointer, whose tree is to be rewritten. */
  ghost predicate IsOriginal(
    v: Visitor, m: Meaning, st: State, orig: set<Id>, p: Ptr, q: Part, d: nat, k: int)
  {
    && q.result == RewriteTree(m, q.now) && (p.Ref? ==> p.id in orig && Inside(st.nodes, orig))
    && SoundBelow(v, m, q.now) && Height(q.now) <= k && d >= Need(m, q.now)
  }

  /** A pointer that was forwarded, and that a visit gives back. */
  ghost predicate IsIdle(v: Visitor, m: Meaning, st: State, orig: set<Id>, p: Ptr, q: Part, d: nat)
  {
    v.Forwards() && q.now == q.result && Idle(v, m, st, orig, p, q.now) && d >= Height(q.now)
  }

  ghost predicate Expected(
    v: Visitor, m: Meaning, st: State, orig: set<Id>, s: Slot<Ptr>, q: Slot<Part>, d: nat, k: int)
  {
    && UnfoldsAt(st.nodes, s, Now(q))
    && ((IsOriginal(v, m, st, orig, s.at, q.at, d, k) && ElementSound(v, m, Now(q)))
        || IsIdle(v, m, st, orig, s.at, q.at, d))
  }

  ghost predicate AllExpected(
    v: Visitor, m: Meaning, st: State, orig: set<Id>, ks: seq<Slot<Ptr>>, ps: seq<Slot<Part>>, d: nat, k: int)
  {
    |ks| == |ps|
    && forall i {:trigger Expected(v, m, st, orig, ks[i], ps[i], d, k)} ::
         0 <= i < |ps| ==> Expected(v, m, st, orig, ks[i], ps[i], d, k)
  }

  lemma ExpectedGrows(
    v: Visitor, m: Meaning, st: State, st': State, orig: set<Id>, ks: seq<Slot<Ptr>>, ps: seq<Slot<Part>>, d: nat,
      k: int)
    requires AllExpected(v, m, st, orig, ks, ps, d, k) && SubGraph(st.nodes, st'.nodes) && orig <= st.nodes.Keys
    requires v.visitDagOnce ==> Settles(orig, st, st')
    ensures AllExpected(v, m, st', orig, ks, ps, d, k)
  {
    forall i | 0 <= i < |ps| ensures Expected(v, m, st', orig, ks[i], ps[i], d, k) {
      assert Expected(v, m, st, orig, ks[i], ps[i], d, k);
      UnfoldsGrows(st.nodes, st'.nodes, ks[i].at, ps[i].at.now);
      if IsIdle(v, m, st, orig, ks[i].at, ps[i].at, d) {
        IdleGrows(v, m, st, st', orig, ks[i].at, ps[i].at.now);
      }
    }
  }

  lemma ExpectedUnfold(
    v: Visitor, m: Meaning, st: State, orig: set<Id>, ks: seq<Slot<Ptr>>, ps: seq<Slot<Part>>, d: nat, k: int)
    requires AllExpected(v, m, st, orig, ks, ps, d, k)
    ensures UnfoldsAll(st.nodes, ks, Nows(ps))
  {
    forall i | 0 <= i < |ps| ensures UnfoldsAt(st.nodes, ks[i], Nows(ps)[i]) {
      assert Expected(v, m, st, orig, ks[i], ps[i], d, k);
    }
  }

  lemma ExpectedPick(
    v: Visitor, m: Meaning, st: State, orig: set<Id>, ks: seq<Slot<Ptr>>, ps: seq<Slot<Part>>, sel: seq<nat>, d: nat,
    k: nat)
    requires AllExpected(v, m, st, orig, ks, ps, d, k)
    ensures AllExpected(v, m, st, orig, Pick(ks, sel, NULL), Pick(ps, sel, NONE), d, k)
  {
    forall i | 0 <= i < |sel| ensures Expected(v, m, st, orig, Pick(ks, sel, NULL)[i], Pick(ps, sel, NONE)[i], d, k) {
      if sel[i] < |ks| { assert Expected(v, m, st, orig, ks[sel[i]], ps[sel[i]], d, k); }
    }
  }

  // ---------- what stands in the place of a child ----------

  /** Pointers and trees agree on what the result `r` for an original child puts in its place. */
  lemma PieceOk(v: Visitor, m: Meaning, st: State, orig: set<Id>, s: Slot<Ptr>, t: Slot<Tree>, r: Ptr)
    requires UnfoldsAt(st.nodes, s, t) && ResultOk(v, m, st, orig, r, s.at, t.at) && ElementSound(v, m, t)
    ensures (var out, us := Piece(st.nodes, s, r), TreePiece(t, RewriteTree(m, t.at));
      && UnfoldsAll(st.nodes, out, us) && (v.visitDagOnce ==> AllIdle(v, m, st, orig, out, us))
      && (Untouched(v, m, t.at) ==> out == [s] && us == [t]))
  {
    var u := RewriteTree(m, t.at);
    if r == s.at { UnfoldsUnique(st.nodes, r, t.at, u); }
    if t.kind.Elem? && r != s.at && IsVector(u) {
      assert u != t.at;
      UnfoldsNode(st.nodes, r, u);
      forall i | 0 <= i < |u.kids| ensures UnfoldsAt(st.nodes, Piece(st.nodes, s, r)[i], TreePiece(t, u)[i]) {
        assert UnfoldsAt(st.nodes, st.nodes[r.id].kids[i], u.kids[i]);
      }
      if v.visitDagOnce {
        assert AllIdle(v, m, st, orig, st.nodes[r.id].kids, u.kids);
        forall i | 0 <= i < |u.kids|
          ensures Idle(v, m, st, orig, Piece(st.nodes, s, r)[i].at, TreePiece(t, u)[i].at)
        {
          assert Idle(v, m, st, orig, st.nodes[r.id].kids[i].at, u.kids[i].at);
        }
      }
    }
  }

  lemma AllIdleAppend(
    v: Visitor, m: Meaning, st: State, orig: set<Id>, ks: seq<Slot<Ptr>>, ts: seq<Slot<Tree>>, ls: seq<Slot<Ptr>>,
    us: seq<Slot<Tree>>)
    requires AllIdle(v, m, st, orig, ks, ts) && AllIdle(v, m, st, orig, ls, us)
    ensures AllIdle(v, m, st, orig, ks + ls, ts + us)
  {
    forall i | 0 <= i < |ts + us| ensures Idle(v, m, st, orig, (ks + ls)[i].at, (ts + us)[i].at) {
      if i < |ts| { assert Idle(v, m, st, orig, ks[i].at, ts[i].at); }
      else { assert Idle(v, m, st, orig, ls[i - |ts|].at, us[i - |ts|].at); }
    }
  }

  // ---------- the steps of one visit ----------

  /** `x` may be visited: it is original, unfolds to `t`, and is neither done nor in progress. */
  ghost predicate Enterable(v: Visitor, st: State, orig: set<Id>, x: Id, t: Tree)
  {
    && x in orig && Unfolds(st.nodes, Ref(x), t)
    && !(x in st.visited && st.visited[x].inProgress) && !(v.visitDagOnce && Done(st.visited, x))
  }

  /** The state `st2` in the middle of the visit of `x` that began in `st`. */
  ghost predicate Mid(v: Visitor, orig: set<Id>, st: State, st2: State, x: Id, f: Frame)
  {
    && SubGraph(st.nodes, st2.nodes) && st.next <= f.standIn <= f.clone < st2.next
    && (forall y :: y in st2.nodes ==> y in st.nodes || y >= st.next)
    && x in st2.visited
    && (forall y :: y in st.visited ==> y in st2.visited)
    && (forall y :: y in st.visited && y != x && (st.visited[y].inProgress || v.visitDagOnce) ==>
          st2.visited[y] == st.visited[y])
    && (forall y :: y in st2.visited && st2.visited[y].inProgress ==>
          y == x || (y == f.standIn && f.standIn != f.clone) || (y in st.visited && st.visited[y].inProgress))
    && (v.visitDagOnce ==> st2.visited[x] == VisitInfo(true, Ref(x)))
    && (f.standIn != f.clone ==> f.standIn in st2.visited && st2.visited[f.standIn] == VisitInfo(true, Ref(f.standIn)))
    && f.clone !in st2.visited
    && (v.visitDagOnce ==>
          forall y :: y in st2.visited && y !in st.visited ==> Accounted(orig, st.next, st2.visited, y))
  }

  lemma MidGrows(v: Visitor, orig: set<Id>, st: State, st1: State, st2: State, x: Id, f: Frame)
    requires Mid(v, orig, st, st1, x, f) && Extends(v, orig, st1, st2) && f.clone !in st1.nodes
    requires Allocated(st1.nodes, st1.next) && st2.visited.Keys <= st2.nodes.Keys
    ensures Mid(v, orig, st, st2, x, f) && f.clone !in st2.nodes
  {
    if v.visitDagOnce {
      forall y | y in st2.visited && y !in st.visited ensures Accounted(orig, st.next, st2.visited, y) {
        if y in st1.visited { assert Accounted(orig, st.next, st1.visited, y); }
        else { assert Accounted(orig, st1.next, st2.visited, y); }
      }
    }
  }

  lemma MidAllocates(v: Visitor, orig: set<Id>, st: State, st2: State, st3: State, x: Id, f: Frame)
    requires Mid(v, orig, st, st2, x, f) && SubGraph(st2.nodes, st3.nodes) && st3.visited == st2.visited
    requires st2.next <= st3.next && forall y :: y in st3.nodes ==> y in st2.nodes || y >= st2.next || y == f.clone
    ensures Mid(v, orig, st, st3, x, f)
  {}

  lemma MidSettles(v: Visitor, orig: set<Id>, st: State, st2: State, x: Id, f: Frame)
    requires Mid(v, orig, st, st2, x, f) && v.visitDagOnce && !Done(st.visited, x) && Allocated(st.nodes, st.next)
    ensures Settles(orig, st, st2)
  {}

  lemma OpenMid(v: Visitor, m: Meaning, st: State, orig: set<Id>, x: Id, t: Tree, go: PreAction)
    requires Good(v, m, st, orig) && Enterable(v, st, orig, x, t) && go.Go?
    ensures var (st1, f) := Open(v, st, x, go);
      Mid(v, orig, st, st1, x, f) && f.clone !in st1.nodes
  {
  }

  lemma OpenGood(v: Visitor, m: Meaning, st: State, orig: set<Id>, x: Id, t: Tree, go: PreAction)
    requires Good(v, m, st, orig) && Enterable(v, st, orig, x, t) && go.Go?
    ensures Good(v, m, Open(v, st, x, go).0, orig)
  {
    var (st1, f) := Open(v, st, x, go);
    OpenMid(v, m, st, orig, x, t, go);
    if v.visitDagOnce {
      MidSettles(v, orig, st, st1, x, f);
      forall y: Id | Done(st1.visited, y) ensures Fixed(st1, st1.visited[y].result) {
        assert Fixed(st, st.visited[y].result);
      }
    }
    GoodGrows(v, m, st, st1, orig);
  }

  lemma OpenAbove(v: Visitor, m: Meaning, st: State, orig: set<Id>, x: Id, t: Tree, go: PreAction)
    requires Good(v, m, st, orig) && Above(st, orig, Height(t)) && Enterable(v, st, orig, x, t) && go.Go?
    ensures Above(Open(v, st, x, go).0, orig, Height(t) - 1)
  {
    var (st1, f) := Open(v, st, x, go);
    OpenMid(v, m, st, orig, x, t, go);
    forall y | y in orig && y in st1.visited && st1.visited[y].inProgress ensures StackEntry(st1, y, Height(t) - 1) {
      if y == x {
        UnfoldsGrows(st.nodes, st1.nodes, Ref(x), t);
      } else {
        assert StackEntry(st, y, Height(t));
        var ty :| Unfolds(st.nodes, Ref(y), ty) && Height(ty) > Height(t);
        UnfoldsGrows(st.nodes, st1.nodes, Ref(y), ty);
      }
    }
  }

  /** What is known of the node that the visit of `x`, begun in `st0`, is about to return; it unfolds
      to `o`, and if `lasting` its elements can be visited again. */
  ghost predicate FinalOk(
    v: Visitor, m: Meaning, st: State, orig: set<Id>, x: Id, t: Tree, o: Tree, lasting: bool, f: Frame, final: Ptr)
  {
    && Unfolds(st.nodes, final, o)
    && (v.visitDagOnce ==>
          || Fixed(st, final)
          || (final.id !in st.visited && final.id !in orig)
          || (f.standIn != f.clone && final == Ref(f.standIn)))
    && (Untouched(v, m, t) ==> f.standIn == f.clone && !Differs(st.nodes, x, final))
    && (v.visitDagOnce && lasting ==> ElementsIdle(v, m, st, orig, final, o))
  }

  // ---------- templates ----------

  /** What a template allocates is new and unfolds to what the template stands for. */
  lemma {:induction false} PlantOk(nodes: Nodes, next: Id, f: Template, ks: seq<Slot<Ptr>>, ts: seq<Slot<Tree>>)
    requires Allocated(nodes, next) && UnfoldsAll(nodes, ks, ts)
    ensures (var r := Plant(nodes, next, f, ks);
      && Allocated(r.nodes, r.next) && SubGraph(nodes, r.nodes) && Unfolds(r.nodes, r.value, Grow(f, ts))
      && forall y :: y in r.nodes ==> y in nodes || y >= next)
    decreases f, 0
  {
    if f.New? {
      PlantAllOk(nodes, next, f.fields, ks, ts);
      var r := PlantAll(nodes, next, f.fields, ks);
      var nodes' := r.nodes[r.next := Node(f.tag, r.value)];
      UnfoldsAllGrows(r.nodes, nodes', r.value, GrowAll(f.fields, ts));
      UnfoldsNode(nodes', Ref(r.next), Grow(f, ts));
    } else if f.i < |ks| {
      assert UnfoldsAt(nodes, ks[f.i], ts[f.i]);
    }
  }

  lemma {:induction false} PlantAllOk(
    nodes: Nodes, next: Id, fs: seq<Slot<Template>>, ks: seq<Slot<Ptr>>, ts: seq<Slot<Tree>>)
    requires Allocated(nodes, next) && UnfoldsAll(nodes, ks, ts)
    ensures (var r := PlantAll(nodes, next, fs, ks);
      && Allocated(r.nodes, r.next) && SubGraph(nodes, r.nodes) && UnfoldsAll(r.nodes, r.value, GrowAll(fs, ts))
      && forall y :: y in r.nodes ==> y in nodes || y >= next)
    decreases fs, 1
  {
    if fs != [] {
      assert fs[0].at < fs[0];
      PlantOk(nodes, next, fs[0].at, ks, ts);
      var first := Plant(nodes, next, fs[0].at, ks);
      UnfoldsAllGrows(nodes, first.nodes, ks, ts);
      PlantAllOk(first.nodes, first.next, fs[1..], ks, ts);
      var rest := PlantAll(first.nodes, first.next, fs[1..], ks);
      UnfoldsGrows(first.nodes, rest.nodes, first.value, Grow(fs[0].at, ts));
      var one, u := [Slot(fs[0].kind, first.value)], [Slot(fs[0].kind, Grow(fs[0].at, ts))];
      assert UnfoldsAt(rest.nodes, one[0], u[0]);
      UnfoldsAppend(rest.nodes, one, u, rest.value, GrowAll(fs[1..], ts));
    }
  }

  lemma IdleAllocates(v: Visitor, m: Meaning, st: State, nodes: Nodes, next: Id, orig: set<Id>)
    requires SubGraph(st.nodes, nodes) && Allocated(st.nodes, st.next)
    ensures Settles(orig, st, st.(nodes := nodes, next := next))
  {}

  /** Where the callbacks keep the new nodes of a template, what it allocates is idle. */
  lemma {:induction false} PlantIdle(
    v: Visitor, m: Meaning, st: State, orig: set<Id>, f: Template, ks: seq<Slot<Ptr>>, ts: seq<Slot<Tree>>)
    requires Good(v, m, st, orig) && UnfoldsAll(st.nodes, ks, ts) && AllIdle(v, m, st, orig, ks, ts)
    requires LastingTemplate(v, m, f, ts)
    ensures (var r := Plant(st.nodes, st.next, f, ks);
      Idle(v, m, st.(nodes := r.nodes, next := r.next), orig, r.value, Grow(f, ts)))
    decreases f, 0
  {
    if f.New? {
      PlantAllIdle(v, m, st, orig, f.fields, ks, ts);
      PlantAllOk(st.nodes, st.next, f.fields, ks, ts);
      var r := PlantAll(st.nodes, st.next, f.fields, ks);
      var st1 := st.(nodes := r.nodes, next := r.next);
      var st2 := st.(nodes := r.nodes[r.next := Node(f.tag, r.value)], next := r.next + 1);
      IdleAllocates(v, m, st1, st2.nodes, st2.next, orig);
      AllIdleGrows(v, m, st1, st2, orig, r.value, GrowAll(f.fields, ts));
    } else if f.i < |ks| {
      assert Idle(v, m, st, orig, ks[f.i].at, ts[f.i].at);
    }
  }

  lemma {:induction false} PlantAllIdle(
    v: Visitor, m: Meaning, st: State, orig: set<Id>, fs: seq<Slot<Template>>, ks: seq<Slot<Ptr>>, ts: seq<Slot<Tree>>)
    requires Good(v, m, st, orig) && UnfoldsAll(st.nodes, ks, ts) && AllIdle(v, m, st, orig, ks, ts)
    requires LastingAll(v, m, fs, ts)
    ensures (var r := PlantAll(st.nodes, st.next, fs, ks);
      AllIdle(v, m, st.(nodes := r.nodes, next := r.next), orig, r.value, GrowAll(fs, ts)))
    decreases fs, 1
  {
    if fs != [] {
      assert fs[0].at < fs[0];
      PlantIdle(v, m, st, orig, fs[0].at, ks, ts);
      PlantOk(st.nodes, st.next, fs[0].at, ks, ts);
      var first := Plant(st.nodes, st.next, fs[0].at, ks);
      var st1 := st.(nodes := first.nodes, next := first.next);
      IdleAllocates(v, m, st, st1.nodes, st1.next, orig);
      AllIdleGrows(v, m, st, st1, orig, ks, ts);
      UnfoldsAllGrows(st.nodes, st1.nodes, ks, ts);
      GoodAllocates(v, m, st, orig, st1.nodes, st1.next);
      PlantAllIdle(v, m, st1, orig, fs[1..], ks, ts);
      PlantAllOk(st1.nodes, st1.next, fs[1..], ks, ts);
      var rest := PlantAll(first.nodes, first.next, fs[1..], ks);
      var st2 := st.(nodes := rest.nodes, next := rest.next);
      IdleAllocates(v, m, st1, st2.nodes, st2.next, orig);
      IdleGrows(v, m, st1, st2, orig, first.value, Grow(fs[0].at, ts));
      AllIdleAppend(v, m, st2, orig, [Slot(fs[0].kind, first.value)], [Slot(fs[0].kind, Grow(fs[0].at, ts))],
                    rest.value, GrowAll(fs[1..], ts));
    }
  }

  lemma GoodAllocates(v: Visitor, m: Meaning, st: State, orig: set<Id>, nodes: Nodes, next: Id)
    requires Good(v, m, st, orig) && SubGraph(st.nodes, nodes) && Allocated(nodes, next)
    ensures Good(v, m, st.(nodes := nodes, next := next), orig)
  {
    var st' := st.(nodes := nodes, next := next);
    IdleAllocates(v, m, st, nodes, next, orig);
    if v.visitDagOnce {
      forall y: Id | Done(st'.visited, y) ensures Fixed(st', st'.visited[y].result) {
        assert Fixed(st, st.visited[y].result);
      }
    }
    GoodGrows(v, m, st, st', orig);
  }
}
