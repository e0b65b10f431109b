/** In which order an inspector makes its calls: as a plain recursion over the tree of its arrivals does. */
module InspectCalls {
  import opened IRGraph
  import opened Inspect

  /** An arrival: there was no node, or it had been visited before, or it is visited now, with the
      arrivals at its children. */
  datatype Call = Nowhere | Again(n: Id) | First(n: Id, kids: seq<Call>)

  /** `c` is an arrival by the pointer `p`; unless preorder prunes, there is one for every child. */
  ghost predicate Fits(g: Nodes, pre: Id -> bool, c: Call, p: Ptr)
    decreases c
  {
    match c
    case Nowhere => p.Null?
    case Again(x) => p == Ref(x)
    case First(x, kids) =>
      && p == Ref(x) && x in g
      && |kids| == (if pre(x) then |g[x].kids| else 0)
      && forall i :: 0 <= i < |kids| ==> Fits(g, pre, kids[i], g[x].kids[i].at)
  }

  /** Preorder, then the children from the first to the last, then postorder. */
  function Logged(pre: Id -> bool, c: Call): seq<Event>
    decreases c, 0
  {
    match c
    case Nowhere => []
    case Again(x) => [Revisit(x)]
    case First(x, kids) => if pre(x) then [Pre(x)] + LoggedAll(pre, kids) + [Post(x)] else [Pre(x)]
  }

  function LoggedAll(pre: Id -> bool, kids: seq<Call>): seq<Event>
    decreases kids, 1
  {
    if kids == [] then [] else Logged(pre, kids[0]) + LoggedAll(pre, kids[1..])
  }

  /** Only a node whose visit is over is revisited. */
  ghost predicate RevisitsLater(pre: Id -> bool, log: seq<Event>)
  {
    forall i :: 0 <= i < |log| && log[i].Revisit? ==> Mark(pre, log[i].n) in log[..i]
  }

  lemma LaterAppend(pre: Id -> bool, log: seq<Event>, e: Event)
    requires RevisitsLater(pre, log) && (e.Revisit? ==> Mark(pre, e.n) in log)
    ensures RevisitsLater(pre, log + [e])
  {
    var l := log + [e];
    forall i | 0 <= i < |l| && l[i].Revisit? ensures Mark(pre, l[i].n) in l[..i] {
      assert l[..i] == log[..i];
      if i == |log| { assert log[..i] == log; }
    }
  }

  ghost predicate Ready(g: Nodes, pre: Id -> bool, st: State)
  {
    Sane(g, st) && Ordered(g, pre, st) && RevisitsLater(pre, st.log)
  }

  lemma {:induction false} VisitCalls(g: Nodes, pre: Id -> bool, st: State, p: Ptr) returns (c: Call)
    requires Ready(g, pre, st) && (p.Ref? ==> p.id in g)
    ensures var st' := Visit(g, pre, st, p);
      !st'.loop ==> Fits(g, pre, c, p) && st'.log == st.log + Logged(pre, c) && RevisitsLater(pre, st'.log)
    decreases g.Keys - st.visited.Keys, 0, 0
  {
    c := Nowhere;
    if p.Ref? && p.id in st.visited {
      c := Again(p.id);
      if st.visited[p.id] { LaterAppend(pre, st.log, Revisit(p.id)); }
    } else if p.Ref? {
      var x := p.id;
      assert x in g.Keys - st.visited.Keys;
      LogGrows(g, pre, st.log, Pre(x));
      LaterAppend(pre, st.log, Pre(x));
      var kids := KidsCalls(g, pre, Entered(st, x), x, 0);
      c := First(x, kids);
      var st2 := VisitKids(g, pre, Entered(st, x), x, 0);
      if !st2.loop && pre(x) {
        LaterAppend(pre, st2.log, Post(x));
        Regroup(st.log, [Pre(x)], LoggedAll(pre, kids), [Post(x)]);
      }
    }
  }

  /** Between `st` and `st'` the arrivals at the children of `x` from the `i`-th on were `kids`. */
  ghost predicate KidsCalled(g: Nodes, pre: Id -> bool, st: State, st': State, x: Id, i: nat, kids: seq<Call>)
  {
    var ks := Kids(g, pre, x);
    && i + |kids| == |ks| && (forall j :: 0 <= j < |kids| ==> Fits(g, pre, kids[j], ks[i + j]))
    && st'.log == st.log + LoggedAll(pre, kids) && RevisitsLater(pre, st'.log)
  }

  lemma {:induction false} KidsCalls(g: Nodes, pre: Id -> bool, st: State, x: Id, i: nat) returns (kids: seq<Call>)
    requires Ready(g, pre, st) && x in g && i <= |Kids(g, pre, x)|
    ensures var st' := VisitKids(g, pre, st, x, i);
      !st'.loop ==> KidsCalled(g, pre, st, st', x, i, kids)
    decreases g.Keys - st.visited.Keys, 1, |Kids(g, pre, x)| - i
  {
    kids := [];
    var ks := Kids(g, pre, x);
    if i < |ks| {
      assert ks[i] in Ptrs(g[x].kids);
      var c := VisitCalls(g, pre, st, ks[i]);
      var st1 := Visit(g, pre, st, ks[i]);
      if !st1.loop {
        VisitOrdered(g, pre, st, ks[i]);
        FinishedGrows(g, pre, st, ks[i]);
        var rest := KidsCalls(g, pre, st1, x, i + 1);
        kids := [c] + rest;
        var st2 := VisitKids(g, pre, st1, x, i + 1);
        if !st2.loop { KidThenKids(g, pre, st, st1, st2, x, i, c, rest); }
      }
    }
  }

  lemma KidThenKids(g: Nodes, pre: Id -> bool, st: State, st1: State, st2: State, x: Id, i: nat, c: Call,
                    rest: seq<Call>)
    requires i < |Kids(g, pre, x)| && Fits(g, pre, c, Kids(g, pre, x)[i])
    requires st1.log == st.log + Logged(pre, c) && KidsCalled(g, pre, st1, st2, x, i + 1, rest)
    ensures KidsCalled(g, pre, st, st2, x, i, [c] + rest)
  {
    assert ([c] + rest)[1..] == rest;
    assert st.log + Logged(pre, c) + LoggedAll(pre, rest) == st.log + (Logged(pre, c) + LoggedAll(pre, rest));
  }

  /** The calls of a walk that ends without an exception are those of a recursion over the tree of
      arrivals: preorder before the children, the children from the first to the last, postorder behind
      them; and a revisit only when the visit of the node is over. */
  lemma RunCalls(g: Nodes, pre: Id -> bool, root: Id) returns (c: Call)
    requires Closed(g) && root in g && !LoopReachable(g, pre, root)
    ensures Fits(g, pre, c, Ref(root)) && Run(g, pre, root).log == Logged(pre, c)
    ensures RevisitsLater(pre, Logged(pre, c))
  {
    LoopIffReachable(g, pre, root);
    c := VisitCalls(g, pre, START, Ref(root));
    assert [] + Logged(pre, c) == Logged(pre, c);
  }
}
