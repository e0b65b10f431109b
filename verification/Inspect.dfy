/** `Inspector`: a depth-first walk that visits every node once and notices loops. */
module Inspect {
  import opened Sequences
  import opened IRGraph

  datatype Event = Pre(n: Id) | Post(n: Id) | Revisit(n: Id)

  /** `visited` maps a node to whether its visit is over; `log` lists the callbacks made so far;
      `finished` lists the nodes whose visit is over, in that order; `loop` records that "IR loop
      detected" was raised. */
  datatype State = State(visited: map<Id, bool>, log: seq<Event>, finished: seq<Id>, loop: bool)

  /** The children a visit of `x` goes on to: none if preorder returned false. */
  function Kids(g: Nodes, pre: Id -> bool, x: Id): seq<Ptr>
  {
    if x in g && pre(x) then Ptrs(g[x].kids) else []
  }

  ghost predicate Closed(g: Nodes)
  {
    forall x, k :: x in g && k in Ptrs(g[x].kids) && k.Ref? ==> k.id in g
  }

  /** `apply_visitor` */
  function Visit(g: Nodes, pre: Id -> bool, st: State, p: Ptr): (r: State)
    ensures st.visited.Keys <= r.visited.Keys
    decreases g.Keys - st.visited.Keys, 0, 0
  {
    if p.Null? || p.id !in g then st
    else if p.id in st.visited then
      if !st.visited[p.id] then st.(loop := true) else st.(log := st.log + [Revisit(p.id)])
    else
      assert p.id in g.Keys - st.visited.Keys;
      var st1 := VisitKids(g, pre, Entered(st, p.id), p.id, 0);
      if st1.loop then st1 else Left(pre, st1, p.id)
  }

  function Entered(st: State, x: Id): State
  {
    st.(visited := st.visited[x := false], log := st.log + [Pre(x)])
  }

  function Left(pre: Id -> bool, st: State, x: Id): State
  {
    st.(visited := st.visited[x := true], finished := st.finished + [x],
        log := st.log + (if pre(x) then [Post(x)] else []))
  }

  /** `visit_children` */
  function VisitKids(g: Nodes, pre: Id -> bool, st: State, x: Id, i: nat): (r: State)
    ensures st.visited.Keys <= r.visited.Keys
    decreases g.Keys - st.visited.Keys, 1, |Kids(g, pre, x)| - i
  {
    if i >= |Kids(g, pre, x)| then st
    else
      var st1 := Visit(g, pre, st, Kids(g, pre, x)[i]);
      if st1.loop then st1 else VisitKids(g, pre, st1, x, i + 1)
  }

  const START := State(map[], [], [], false)

  // ---------- what a walk adds ----------

  /** Every edge that leaves a node of `f`, by its target. */
  ghost function Edges(g: Nodes, pre: Id -> bool, f: seq<Id>): multiset<Ptr>
  {
    if f == [] then multiset{} else Edges(g, pre, f[..|f| - 1]) + multiset(Kids(g, pre, f[|f| - 1]))
  }

  lemma {:induction false} EdgesAppend(g: Nodes, pre: Id -> bool, a: seq<Id>, b: seq<Id>)
    ensures Edges(g, pre, a + b) == Edges(g, pre, a) + Edges(g, pre, b)
    decreases |b|
  {
    if b == [] {
      assert a + b == a;
    } else {
      var c, x := b[..|b| - 1], b[|b| - 1];
      EdgesAppend(g, pre, a, c);
      LastOf(a, b);
      LastEdges(g, pre, a + c, x);
      LastEdges(g, pre, c, x);
      SumsAgree(Edges(g, pre, a), Edges(g, pre, c), multiset(Kids(g, pre, x)));
    }
  }

  lemma LastOf(a: seq<Id>, b: seq<Id>)
    requires b != []
    ensures a + b == a + b[..|b| - 1] + [b[|b| - 1]] && b == b[..|b| - 1] + [b[|b| - 1]]
  {}

  lemma SumsAgree<T>(a: multiset<T>, b: multiset<T>, c: multiset<T>)
    ensures a + b + c == a + (b + c)
  {}

  lemma LastEdges(g: Nodes, pre: Id -> bool, f: seq<Id>, x: Id)
    ensures Edges(g, pre, f + [x]) == Edges(g, pre, f) + multiset(Kids(g, pre, x))
  {
    assert (f + [x])[..|f|] == f;
  }

  /** The edges of a list are those of one of its nodes and those of the others. */
  lemma EdgesSplit(g: Nodes, pre: Id -> bool, b: seq<Id>, j: nat)
    requires j < |b|
    ensures Edges(g, pre, b) == Edges(g, pre, b[..j] + b[j + 1..]) + multiset(Kids(g, pre, b[j]))
  {
    var y := b[j];
    assert b == b[..j] + ([y] + b[j + 1..]);
    EdgesAppend(g, pre, b[..j], [y] + b[j + 1..]);
    EdgesAppend(g, pre, [y], b[j + 1..]);
    EdgesAppend(g, pre, b[..j], b[j + 1..]);
    assert [y][..0] == [];
  }

  /** The event that tells that the visit of `x` is over. */
  function Mark(pre: Id -> bool, x: Id): Event
  {
    if pre(x) then Post(x) else Pre(x)
  }

  /** The events `d` are those of entering and leaving the nodes `f`, for the arrivals `ins`: per
      node, one preorder call if it is in `f`, one postorder call if it was not pruned, and as many
      preorder and revisit calls together as arrivals at it. */
  ghost predicate Counted(g: Nodes, pre: Id -> bool, ins: multiset<Ptr>, f: seq<Id>, d: seq<Event>)
  {
    forall x :: CountedAt(g, pre, ins, f, d, x)
  }

  ghost predicate CountedAt(g: Nodes, pre: Id -> bool, ins: multiset<Ptr>, f: seq<Id>, d: seq<Event>, x: Id)
  {
    && multiset(d)[Pre(x)] == (if x in f then 1 else 0)
    && multiset(d)[Post(x)] == (if x in f && pre(x) then 1 else 0)
    && multiset(d)[Pre(x)] + multiset(d)[Revisit(x)] == ins[Ref(x)] + Edges(g, pre, f)[Ref(x)]
  }

  /** Between `st` and `st'` exactly the nodes `f` were entered and left. */
  ghost predicate Walked(g: Nodes, st: State, st': State, f: seq<Id>, d: seq<Event>)
  {
    && st'.finished == st.finished + f && st'.log == st.log + d && !st'.loop
    && Distinct(f)
    && (forall x :: x in f ==> x in g && x !in st.visited)
    && (forall x :: x in st'.visited <==> x in st.visited || x in f)
    && (forall x :: x in st.visited ==> st'.visited[x] == st.visited[x])
    && (forall x :: x in f ==> st'.visited[x])
  }

  /** The walk starts anywhere; the stack holds whatever is in progress. */
  ghost predicate Sane(g: Nodes, st: State)
  {
    Closed(g) && !st.loop && st.visited.Keys <= g.Keys
  }

  lemma {:induction false} VisitWalks(g: Nodes, pre: Id -> bool, st: State, p: Ptr) returns (f: seq<Id>, d: seq<Event>)
    requires Sane(g, st) && (p.Ref? ==> p.id in g)
    ensures var st' := Visit(g, pre, st, p);
      !st'.loop ==> Walked(g, st, st', f, d) && Counted(g, pre, multiset{p}, f, d)
    decreases g.Keys - st.visited.Keys, 0, 0
  {
    f, d := [], [];
    if p.Ref? && p.id in st.visited {
      d := [Revisit(p.id)];
    } else if p.Ref? {
      var x := p.id;
      assert x in g.Keys - st.visited.Keys;
      var f1, d1 := KidsWalk(g, pre, Entered(st, x), x, 0);
      f, d := f1 + [x], [Pre(x)] + d1 + (if pre(x) then [Post(x)] else []);
      if !VisitKids(g, pre, Entered(st, x), x, 0).loop {
        NodeWalked(g, pre, st, x, f1, d1);
        assert Kids(g, pre, x)[0..] == Kids(g, pre, x);
        NodeCounted(g, pre, x, f1, d1);
      }
    }
  }

  lemma NodeWalked(g: Nodes, pre: Id -> bool, st: State, x: Id, f1: seq<Id>, d1: seq<Event>)
    requires Sane(g, st) && x in g && x !in st.visited
    requires Walked(g, Entered(st, x), VisitKids(g, pre, Entered(st, x), x, 0), f1, d1)
    ensures Walked(g, st, Visit(g, pre, st, Ref(x)), f1 + [x], [Pre(x)] + d1 + (if pre(x) then [Post(x)] else []))
    ensures x !in f1
  {
    assert x in Entered(st, x).visited;
    Regroup(st.log, [Pre(x)], d1, if pre(x) then [Post(x)] else []);
    Regroup(st.finished, [], f1, [x]);
    assert st.finished + [] == st.finished && [] + f1 + [x] == f1 + [x];
  }

  lemma Regroup<T>(a: seq<T>, b: seq<T>, c: seq<T>, d: seq<T>)
    ensures a + b + c + d == a + (b + c + d)
  {}

  lemma NodeCounted(g: Nodes, pre: Id -> bool, x: Id, f1: seq<Id>, d1: seq<Event>)
    requires x !in f1 && Counted(g, pre, multiset(Kids(g, pre, x)), f1, d1)
    ensures Counted(g, pre, multiset{Ref(x)}, f1 + [x], [Pre(x)] + d1 + (if pre(x) then [Post(x)] else []))
  {
    var f, tail := f1 + [x], if pre(x) then [Post(x)] else [];
    var d := [Pre(x)] + d1 + tail;
    assert Edges(g, pre, f) == Edges(g, pre, f1) + multiset(Kids(g, pre, x)) by { assert f[..|f| - 1] == f1; }
    assert multiset(d) == multiset{Pre(x)} + multiset(d1) + multiset(tail);
    forall y ensures CountedAt(g, pre, multiset{Ref(x)}, f, d, y) {
      assert CountedAt(g, pre, multiset(Kids(g, pre, x)), f1, d1, y);
    }
  }

  lemma {:induction false} KidsWalk(g: Nodes, pre: Id -> bool, st: State, x: Id, i: nat)
    returns (f: seq<Id>, d: seq<Event>)
    requires Sane(g, st) && i <= |Kids(g, pre, x)|
    ensures var st' := VisitKids(g, pre, st, x, i);
      !st'.loop ==> Walked(g, st, st', f, d) && Counted(g, pre, multiset(Kids(g, pre, x)[i..]), f, d)
    decreases g.Keys - st.visited.Keys, 1, |Kids(g, pre, x)| - i
  {
    f, d := [], [];
    var ks := Kids(g, pre, x);
    if i < |ks| {
      assert ks[i] in Ptrs(g[x].kids);
      var st1 := Visit(g, pre, st, ks[i]);
      var f1, d1 := VisitWalks(g, pre, st, ks[i]);
      if !st1.loop {
        var f2, d2 := KidsWalk(g, pre, st1, x, i + 1);
        f, d := f1 + f2, d1 + d2;
        var st2 := VisitKids(g, pre, st1, x, i + 1);
        if !st2.loop {
          WalkedThen(g, st, st1, st2, f1, d1, f2, d2);
          FirstArrives(g, pre, ks, i, f1, d1, f2, d2);
        }
      }
    }
  }

  lemma FirstArrives(g: Nodes, pre: Id -> bool, ks: seq<Ptr>, i: nat, f1: seq<Id>, d1: seq<Event>, f2: seq<Id>,
                     d2: seq<Event>)
    requires i < |ks| && Counted(g, pre, multiset{ks[i]}, f1, d1) && Counted(g, pre, multiset(ks[i + 1..]), f2, d2)
    requires forall x :: x in f1 ==> x !in f2
    ensures Counted(g, pre, multiset(ks[i..]), f1 + f2, d1 + d2)
  {
    assert ks[i..] == [ks[i]] + ks[i + 1..];
    CountedThen(g, pre, multiset{ks[i]}, multiset(ks[i + 1..]), f1, d1, f2, d2);
  }

  lemma WalkedThen(g: Nodes, st: State, st1: State, st2: State, f1: seq<Id>, d1: seq<Event>, f2: seq<Id>,
                   d2: seq<Event>)
    requires Walked(g, st, st1, f1, d1) && Walked(g, st1, st2, f2, d2)
    ensures Walked(g, st, st2, f1 + f2, d1 + d2)
    ensures forall x :: x in f1 ==> x !in f2
  {
    assert st.log + d1 + d2 == st.log + (d1 + d2);
    assert st.finished + f1 + f2 == st.finished + (f1 + f2);
    var f := f1 + f2;
    forall i, j | 0 <= i < j < |f| ensures f[i] != f[j] {
      if i < |f1| <= j { assert f[i] in f1 && f[j] in f2; }
    }
  }

  lemma CountedThen(g: Nodes, pre: Id -> bool, in1: multiset<Ptr>, in2: multiset<Ptr>,
                    f1: seq<Id>, d1: seq<Event>, f2: seq<Id>, d2: seq<Event>)
    requires Counted(g, pre, in1, f1, d1) && Counted(g, pre, in2, f2, d2) && forall x :: x in f1 ==> x !in f2
    ensures Counted(g, pre, in1 + in2, f1 + f2, d1 + d2)
  {
    EdgesAppend(g, pre, f1, f2);
    assert multiset(d1 + d2) == multiset(d1) + multiset(d2);
    forall y ensures CountedAt(g, pre, in1 + in2, f1 + f2, d1 + d2, y) {
      assert CountedAt(g, pre, in1, f1, d1, y) && CountedAt(g, pre, in2, f2, d2, y);
    }
  }

  // ---------- order and loops ----------

  ghost predicate Edge(g: Nodes, pre: Id -> bool, x: Id, y: Id)
  {
    Ref(y) in Kids(g, pre, x)
  }

  /** A walk along edges. */
  ghost predicate IsPath(g: Nodes, pre: Id -> bool, q: seq<Id>)
  {
    q != [] && forall i :: 0 < i < |q| ==> Edge(g, pre, q[i - 1], q[i])
  }

  ghost predicate PathTo(g: Nodes, pre: Id -> bool, x: Id, y: Id, q: seq<Id>)
  {
    IsPath(g, pre, q) && q[0] == x && q[|q| - 1] == y
  }

  ghost predicate Reachable(g: Nodes, pre: Id -> bool, x: Id, y: Id)
  {
    exists q :: PathTo(g, pre, x, y, q)
  }

  /** `q` is a walk from `x` that meets some node twice. */
  ghost predicate Loops(g: Nodes, pre: Id -> bool, x: Id, q: seq<Id>)
  {
    IsPath(g, pre, q) && q[0] == x && exists i, j :: 0 <= i < j < |q| && q[i] == q[j]
  }

  ghost predicate LoopReachable(g: Nodes, pre: Id -> bool, x: Id)
  {
    exists q :: Loops(g, pre, x, q)
  }

  /** Every node that is finished has had its children finished before, and the events say so. */
  ghost predicate Ordered(g: Nodes, pre: Id -> bool, st: State)
  {
    && (forall x :: x in st.finished ==> x in st.visited && st.visited[x])
    && (forall x :: x in st.visited && st.visited[x] ==> x in st.finished && Mark(pre, x) in st.log)
    && (forall i, y :: 0 <= i < |st.finished| && Edge(g, pre, st.finished[i], y) ==> y in st.finished[..i])
    && LogOrdered(g, pre, st.log)
  }

  ghost predicate LogOrdered(g: Nodes, pre: Id -> bool, log: seq<Event>)
  {
    forall i, x, y :: 0 <= i < |log| && log[i] == Post(x) && Edge(g, pre, x, y) ==> Mark(pre, y) in log[..i]
  }

  lemma LogGrows(g: Nodes, pre: Id -> bool, log: seq<Event>, e: Event)
    requires LogOrdered(g, pre, log)
    requires e.Post? ==> forall y :: Edge(g, pre, e.n, y) ==> Mark(pre, y) in log
    ensures LogOrdered(g, pre, log + [e])
  {
    var l := log + [e];
    forall i, u, y | 0 <= i < |l| && l[i] == Post(u) && Edge(g, pre, u, y) ensures Mark(pre, y) in l[..i] {
      assert l[..i] == log[..i];
    }
  }

  lemma {:induction false} VisitOrdered(g: Nodes, pre: Id -> bool, st: State, p: Ptr)
    requires Sane(g, st) && (p.Ref? ==> p.id in g) && Ordered(g, pre, st)
    ensures var st' := Visit(g, pre, st, p);
      !st'.loop ==> Ordered(g, pre, st') && (p.Ref? ==> p.id in st'.finished)
    decreases g.Keys - st.visited.Keys, 0, 0
  {
    if p.Ref? && p.id !in st.visited {
      var x := p.id;
      assert x in g.Keys - st.visited.Keys;
      var st1 := Entered(st, x);
      LogGrows(g, pre, st.log, Pre(x));
      KidsOrdered(g, pre, st1, x, 0);
      var st2 := VisitKids(g, pre, st1, x, 0);
      if !st2.loop {
        var f, d := KidsWalk(g, pre, st1, x, 0);
        LeftOrdered(g, pre, st2, x);
      }
    } else if p.Ref? {
      LogGrows(g, pre, st.log, Revisit(p.id));
    }
  }

  lemma LeftOrdered(g: Nodes, pre: Id -> bool, st: State, x: Id)
    requires Ordered(g, pre, st) && x in st.visited && !st.visited[x] && Pre(x) in st.log
    requires forall y :: Edge(g, pre, x, y) ==> y in st.finished
    ensures Ordered(g, pre, Left(pre, st, x))
  {
    var st' := Left(pre, st, x);
    forall i, y | 0 <= i < |st'.finished| && Edge(g, pre, st'.finished[i], y) ensures y in st'.finished[..i] {
      assert st'.finished[..i] == st.finished[..i];
    }
    if pre(x) { LogGrows(g, pre, st.log, Post(x)); } else { assert st.log + [] == st.log; }
  }

  lemma {:induction false} KidsOrdered(g: Nodes, pre: Id -> bool, st: State, x: Id, i: nat)
    requires Sane(g, st) && i <= |Kids(g, pre, x)| && Ordered(g, pre, st)
    requires forall j :: 0 <= j < i && Kids(g, pre, x)[j].Ref? ==> Kids(g, pre, x)[j].id in st.finished
    ensures var st' := VisitKids(g, pre, st, x, i);
      !st'.loop ==> Ordered(g, pre, st') && forall y :: Edge(g, pre, x, y) ==> y in st'.finished
    decreases g.Keys - st.visited.Keys, 1, |Kids(g, pre, x)| - i
  {
    var ks := Kids(g, pre, x);
    if i < |ks| {
      assert ks[i] in Ptrs(g[x].kids);
      var st1 := Visit(g, pre, st, ks[i]);
      VisitOrdered(g, pre, st, ks[i]);
      if !st1.loop {
        FinishedGrows(g, pre, st, ks[i]);
        KidsOrdered(g, pre, st1, x, i + 1);
      }
    }
  }

  lemma FinishedGrows(g: Nodes, pre: Id -> bool, st: State, p: Ptr)
    requires Sane(g, st) && (p.Ref? ==> p.id in g) && !Visit(g, pre, st, p).loop
    ensures Sane(g, Visit(g, pre, st, p)) && forall x :: x in st.finished ==> x in Visit(g, pre, st, p).finished
  {
    var f, d := VisitWalks(g, pre, st, p);
  }

  /** The nodes in progress form a walk from the root that ends just above `p`. */
  ghost predicate Stack(g: Nodes, pre: Id -> bool, st: State, q: seq<Id>, p: Ptr)
  {
    && (forall x :: x in st.visited && !st.visited[x] ==> x in q)
    && (q != [] ==> IsPath(g, pre, q) && (p.Ref? ==> Edge(g, pre, q[|q| - 1], p.id)))
  }

  lemma {:induction false} LoopIsReal(g: Nodes, pre: Id -> bool, st: State, q: seq<Id>, p: Ptr)
    requires Sane(g, st) && (p.Ref? ==> p.id in g) && Stack(g, pre, st, q, p)
    requires Visit(g, pre, st, p).loop
    ensures p.Ref? && LoopReachable(g, pre, if q == [] then p.id else q[0])
    decreases g.Keys - st.visited.Keys, 0, 0
  {
    var x := p.id;
    if x in st.visited {
      MetOnPath(g, pre, q, x);
    } else {
      assert x in g.Keys - st.visited.Keys;
      KidLoopIsReal(g, pre, Entered(st, x), q + [x], x, 0);
    }
  }

  /** The node is on the path to it already. */
  lemma MetOnPath(g: Nodes, pre: Id -> bool, q: seq<Id>, x: Id)
    requires x in q && IsPath(g, pre, q) && Edge(g, pre, q[|q| - 1], x)
    ensures LoopReachable(g, pre, q[0])
  {
    var q', i :| q' == q + [x] && 0 <= i < |q| && q[i] == x;
    assert q'[i] == q'[|q|] && Loops(g, pre, q[0], q');
  }

  lemma {:induction false} KidLoopIsReal(g: Nodes, pre: Id -> bool, st: State, q: seq<Id>, x: Id, i: nat)
    requires Sane(g, st) && IsPath(g, pre, q) && q[|q| - 1] == x && i <= |Kids(g, pre, x)|
    requires forall y :: y in st.visited && !st.visited[y] ==> y in q
    requires VisitKids(g, pre, st, x, i).loop
    ensures LoopReachable(g, pre, q[0])
    decreases g.Keys - st.visited.Keys, 1, |Kids(g, pre, x)| - i
  {
    var ks := Kids(g, pre, x);
    assert ks[i] in Ptrs(g[x].kids) && (ks[i].Ref? ==> Edge(g, pre, x, ks[i].id));
    var st1 := Visit(g, pre, st, ks[i]);
    if st1.loop {
      LoopIsReal(g, pre, st, q, ks[i]);
    } else {
      var f, d := VisitWalks(g, pre, st, ks[i]);
      KidLoopIsReal(g, pre, st1, q, x, i + 1);
    }
  }

  lemma {:induction false} VisitReaches(g: Nodes, pre: Id -> bool, st: State, root: Id, p: Ptr, x: Id)
    requires Sane(g, st) && (p.Ref? ==> p.id in g && Reachable(g, pre, root, p.id))
    requires x in Visit(g, pre, st, p).finished && x !in st.finished
    ensures Reachable(g, pre, root, x)
    decreases g.Keys - st.visited.Keys, 0, 0
  {
    if p.Ref? && p.id !in st.visited && p.id != x {
      assert p.id in g.Keys - st.visited.Keys;
      KidsReach(g, pre, Entered(st, p.id), root, p.id, 0, x);
    }
  }

  lemma {:induction false} KidsReach(g: Nodes, pre: Id -> bool, st: State, root: Id, y: Id, i: nat, x: Id)
    requires Sane(g, st) && Reachable(g, pre, root, y) && i <= |Kids(g, pre, y)|
    requires x in VisitKids(g, pre, st, y, i).finished && x !in st.finished
    ensures Reachable(g, pre, root, x)
    decreases g.Keys - st.visited.Keys, 1, |Kids(g, pre, y)| - i
  {
    var k := Kids(g, pre, y)[i];
    assert k in Ptrs(g[y].kids);
    if k.Ref? { ReachableStep(g, pre, root, y, k.id); }
    var st1 := Visit(g, pre, st, k);
    if x in st1.finished {
      VisitReaches(g, pre, st, root, k, x);
    } else {
      var f, d := VisitWalks(g, pre, st, k);
      KidsReach(g, pre, st1, root, y, i + 1, x);
    }
  }

  lemma ReachableStep(g: Nodes, pre: Id -> bool, x: Id, y: Id, z: Id)
    requires Reachable(g, pre, x, y) && Edge(g, pre, y, z)
    ensures Reachable(g, pre, x, z)
  {
    var q :| PathTo(g, pre, x, y, q);
    assert PathTo(g, pre, x, z, q + [z]);
  }

  // ---------- whole walks ----------

  /** `root->apply(inspector)` */
  function Run(g: Nodes, pre: Id -> bool, root: Id): State
  {
    Visit(g, pre, START, Ref(root))
  }

  ghost function Index(f: seq<Id>, x: Id): (i: nat)
    requires x in f
    ensures i < |f| && f[i] == x
  {
    var i: nat :| i < |f| && f[i] == x;
    i
  }

  /** Along a walk the finishing order goes down. */
  lemma {:induction false} PathDescends(g: Nodes, pre: Id -> bool, st: State, q: seq<Id>, i: nat, j: nat)
    requires Ordered(g, pre, st) && Distinct(st.finished) && IsPath(g, pre, q) && q[0] in st.finished && i <= j < |q|
    ensures q[i] in st.finished && q[j] in st.finished
      && (i < j ==> Index(st.finished, q[j]) < Index(st.finished, q[i]))
    decreases j
  {
    if j > 0 {
      PathDescends(g, pre, st, q, if i < j then i else j - 1, j - 1);
      EdgeDescends(g, pre, st, q[j - 1], q[j]);
    }
  }

  lemma EdgeDescends(g: Nodes, pre: Id -> bool, st: State, x: Id, y: Id)
    requires Ordered(g, pre, st) && Distinct(st.finished) && x in st.finished && Edge(g, pre, x, y)
    ensures y in st.finished && Index(st.finished, y) < Index(st.finished, x)
  {
    var k := Index(st.finished, x);
    assert Edge(g, pre, st.finished[k], y);
    var l :| 0 <= l < k && st.finished[l] == y;
  }

  /** "IR loop detected" is raised exactly if a loop can be reached from the root. */
  lemma LoopIffReachable(g: Nodes, pre: Id -> bool, root: Id)
    requires Closed(g) && root in g
    ensures Run(g, pre, root).loop <==> LoopReachable(g, pre, root)
  {
    var st := Run(g, pre, root);
    if st.loop {
      LoopIsReal(g, pre, START, [], Ref(root));
    } else if LoopReachable(g, pre, root) {
      var q :| Loops(g, pre, root, q);
      var i, j :| 0 <= i < j < |q| && q[i] == q[j];
      VisitOrdered(g, pre, START, Ref(root));
      var f, d := VisitWalks(g, pre, START, Ref(root));
      PathDescends(g, pre, st, q, i, j);
    }
  }

  /** How often the walk arrives at `x`: once per edge from a reachable node, and once more at the root. */
  ghost function Arrivals(g: Nodes, pre: Id -> bool, root: Id, order: seq<Id>, x: Id): nat
  {
    (multiset{Ref(root)} + Edges(g, pre, order))[Ref(x)]
  }

  /** `order` lists the nodes reachable from `root`, each once, children before parents. */
  ghost predicate BottomUp(g: Nodes, pre: Id -> bool, root: Id, order: seq<Id>)
  {
    && Distinct(order)
    && (forall x :: x in order <==> Reachable(g, pre, root, x))
    && (forall i, y :: 0 <= i < |order| && Edge(g, pre, order[i], y) ==> y in order[..i])
  }

  /** What happened to `x`: if it is reachable, one preorder call, one postorder call unless it was
      pruned, and one revisit for each arrival after the first; otherwise nothing. */
  ghost predicate VisitedOnce(g: Nodes, pre: Id -> bool, root: Id, st: State, x: Id)
  {
    if Reachable(g, pre, root, x) then
      && multiset(st.log)[Pre(x)] == 1
      && multiset(st.log)[Post(x)] == (if pre(x) then 1 else 0)
      && multiset(st.log)[Revisit(x)] == Arrivals(g, pre, root, st.finished, x) - 1
    else Pre(x) !in st.log && Post(x) !in st.log && Revisit(x) !in st.log
  }

  lemma RunFinished(g: Nodes, pre: Id -> bool, root: Id)
    requires Closed(g) && root in g && !LoopReachable(g, pre, root)
    ensures var st := Run(g, pre, root);
      !st.loop && Ordered(g, pre, st) && root in st.finished && Distinct(st.finished)
      && Counted(g, pre, multiset{Ref(root)}, st.finished, st.log)
  {
    LoopIffReachable(g, pre, root);
    VisitOrdered(g, pre, START, Ref(root));
    RunWalks(g, pre, root);
  }

  lemma RunWalks(g: Nodes, pre: Id -> bool, root: Id)
    requires Closed(g) && root in g && !Run(g, pre, root).loop
    ensures var st := Run(g, pre, root);
      root in st.finished && Distinct(st.finished) && Counted(g, pre, multiset{Ref(root)}, st.finished, st.log)
  {
    var f, d := VisitWalks(g, pre, START, Ref(root));
    assert [] + f == f && [] + d == d;
  }

  lemma FinishedIffReachable(g: Nodes, pre: Id -> bool, root: Id, x: Id)
    requires Closed(g) && root in g && !LoopReachable(g, pre, root)
    ensures x in Run(g, pre, root).finished <==> Reachable(g, pre, root, x)
  {
    var st := Run(g, pre, root);
    RunFinished(g, pre, root);
    assert PathTo(g, pre, root, root, [root]);
    if x in st.finished { VisitReaches(g, pre, START, root, Ref(root), x); }
    if Reachable(g, pre, root, x) {
      var q :| PathTo(g, pre, root, x, q);
      PathDescends(g, pre, st, q, 0, |q| - 1);
    }
  }

  /** Without a loop every reachable node is visited exactly once, and its postorder call comes
      after its children's visits are over. */
  lemma OnceEach(g: Nodes, pre: Id -> bool, root: Id)
    requires Closed(g) && root in g && !LoopReachable(g, pre, root)
    ensures var st := Run(g, pre, root);
      && !st.loop && BottomUp(g, pre, root, st.finished) && LogOrdered(g, pre, st.log)
      && forall x :: VisitedOnce(g, pre, root, st, x)
  {
    RunFinished(g, pre, root);
    var st := Run(g, pre, root);
    forall x ensures VisitedOnce(g, pre, root, st, x) && (x in st.finished <==> Reachable(g, pre, root, x)) {
      FinishedIffReachable(g, pre, root, x);
      assert CountedAt(g, pre, multiset{Ref(root)}, st.finished, st.log, x);
      if x !in st.finished { NoArrivals(g, pre, root, st, x); }
    }
  }

  lemma NoArrivals(g: Nodes, pre: Id -> bool, root: Id, st: State, x: Id)
    requires Ordered(g, pre, st) && root in st.finished && x !in st.finished
    requires CountedAt(g, pre, multiset{Ref(root)}, st.finished, st.log, x)
    ensures Revisit(x) !in st.log
  {
    NoEdges(g, pre, st, |st.finished|, x);
    assert st.finished[..|st.finished|] == st.finished;
  }

  lemma {:induction false} NoEdges(g: Nodes, pre: Id -> bool, st: State, n: nat, x: Id)
    requires Ordered(g, pre, st) && x !in st.finished && n <= |st.finished|
    ensures Ref(x) !in Edges(g, pre, st.finished[..n])
  {
    if n > 0 {
      NoEdges(g, pre, st, n - 1, x);
      assert !Edge(g, pre, st.finished[n - 1], x);
      assert st.finished[..n] == st.finished[..n - 1] + [st.finished[n - 1]];
      LastEdges(g, pre, st.finished[..n - 1], st.finished[n - 1]);
    }
  }
}
