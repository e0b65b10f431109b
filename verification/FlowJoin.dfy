/** `ControlFlowVisitor`: a node with several parents is visited only when the last of them has
    arrived, with the merge of the states that all of them arrived with. */
module FlowJoin {
  import opened Options
  import opened IRGraph
  import Inspect

  /** The visitor: how its state changes at a node and whether it goes on to the children (preorder
      returns false to prune them), how states are merged, which nodes visit their children in parallel
      (each from the state before them), and which it does not want joined. */
  datatype Flow<!S> = Flow(
    pre: (Id, S) -> (S, bool), post: (Id, S) -> S, revisit: (Id, S) -> S,
    merge: (S, S) -> S, dead: S, parallel: Id -> bool, filter: Id -> bool)

  datatype Event<S> = Arrive(n: Id, s: S) | Enter(n: Id, s: S)

  /** An entry of `flow_join_points`. */
  datatype Join<S> = Join(saved: Option<S>, left: int)

  /** `cut` holds the nodes whose children were pruned. */
  datatype State<S> = State(
    visited: map<Id, bool>, joins: map<Id, Join<S>>, s: S, log: seq<Event<S>>, finished: seq<Id>, cut: set<Id>,
    loop: bool)

  function Kids(g: Nodes, x: Id): seq<Ptr>
  {
    if x in g then Ptrs(g[x].kids) else []
  }

  /** `join_flows`: whether the visit of `x` is put off. */
  function JoinFlows<S>(fl: Flow<S>, st: State<S>, x: Id): (State<S>, bool)
  {
    if x !in st.joins then (st, false)
    else
      var j := st.joins[x].(left := st.joins[x].left - 1);
      if j.left == 0 then
        (st.(joins := st.joins[x := j], s := if j.saved.Some? then fl.merge(st.s, j.saved.value) else st.s), false)
      else
        var saved := if j.saved.Some? then fl.merge(j.saved.value, st.s) else st.s;
        (st.(joins := st.joins[x := j.(saved := Some(saved))]), true)
  }

  function Arrived1<S>(st: State<S>, x: Id): State<S>
  {
    st.(log := st.log + [Arrive(x, st.s)])
  }

  /** `preorder` */
  function Entered<S>(fl: Flow<S>, st: State<S>, x: Id): State<S>
  {
    var (s, descend) := fl.pre(x, st.s);
    st.(visited := st.visited[x := false], log := st.log + [Enter(x, st.s)], s := s,
        cut := if descend then st.cut else st.cut + {x})
  }

  function Left<S>(st: State<S>, x: Id): State<S>
  {
    st.(visited := st.visited[x := true], finished := st.finished + [x])
  }

  /** `flow_dead` before the children of a node that visits them in parallel. */
  function BeforeKids<S>(fl: Flow<S>, g: Nodes, st: State<S>, x: Id): State<S>
  {
    if fl.parallel(x) && Kids(g, x) != [] then st.(s := fl.dead) else st
  }

  /** `Inspector::apply_visitor` with flow joining. */
  function Visit<S>(fl: Flow<S>, g: Nodes, st: State<S>, p: Ptr): (r: State<S>)
    ensures st.visited.Keys <= r.visited.Keys
    decreases g.Keys - st.visited.Keys, 0, 0
  {
    if p.Null? || p.id !in g then st
    else
      var (st1, skip) := JoinFlows(fl, Arrived1(st, p.id), p.id);
      if skip then st1
      else if p.id in st.visited then
        if !st.visited[p.id] then st1.(loop := true) else st1.(s := fl.revisit(p.id, st1.s))
      else
        assert p.id in g.Keys - st.visited.Keys;
        var st2 := Entered(fl, st1, p.id);
        if !fl.pre(p.id, st1.s).1 then Left(st2, p.id)
        else
          var st3 := VisitKids(fl, g, BeforeKids(fl, g, st2, p.id), p.id, 0, st2.s);
          if st3.loop then st3 else Left(st3.(s := fl.post(p.id, st3.s)), p.id)
  }

  /** `visit_children` and `parallel_visit_children`; `start` is the state before the children. */
  function VisitKids<S>(fl: Flow<S>, g: Nodes, st: State<S>, x: Id, i: nat, start: S): (r: State<S>)
    ensures st.visited.Keys <= r.visited.Keys
    decreases g.Keys - st.visited.Keys, 1, |Kids(g, x)| - i
  {
    if i >= |Kids(g, x)| then st
    else
      var st1 := Visit(fl, g, if fl.parallel(x) then st.(s := start) else st, Kids(g, x)[i]);
      if st1.loop then st1
      else VisitKids(fl, g, if fl.parallel(x) then st1.(s := fl.merge(st.s, st1.s)) else st1, x, i + 1, start)
  }

  // ---------- the counting pass ----------

  /** `SetupJoinPoints`, an inspector that does not remember what it has visited and whose preorder
      counts the arrivals at a node and descends only at the first. */
  type Positive = n: nat | n > 0 witness 1
  datatype Count = Count(visited: map<Id, bool>, counts: map<Id, Positive>, loop: bool)

  function CountAt(c: Count, x: Id): nat
  {
    if x in c.counts then c.counts[x] else 0
  }

  function CountVisit(g: Nodes, c: Count, p: Ptr): (r: Count)
    ensures c.counts.Keys <= r.counts.Keys
    decreases g.Keys - c.counts.Keys, 0, 0
  {
    if p.Null? || p.id !in g then c
    else if p.id in c.visited && !c.visited[p.id] then c.(loop := true)
    else
      var n := CountAt(c, p.id) + 1;
      var c1 := c.(visited := c.visited[p.id := false], counts := c.counts[p.id := n]);
      if n > 1 then c1.(visited := c1.visited[p.id := true])
      else
        assert p.id in g.Keys - c.counts.Keys;
        var c2 := CountKids(g, c1, p.id, 0);
        if c2.loop then c2 else c2.(visited := c2.visited[p.id := true])
  }

  function CountKids(g: Nodes, c: Count, x: Id, i: nat): (r: Count)
    ensures c.counts.Keys <= r.counts.Keys
    decreases g.Keys - c.counts.Keys, 1, |Kids(g, x)| - i
  {
    if i >= |Kids(g, x)| then c
    else
      var c1 := CountVisit(g, c, Kids(g, x)[i]);
      if c1.loop then c1 else CountKids(g, c1, x, i + 1)
  }

  const ALL: Id -> bool := (x: Id) => true

  /** The counting pass makes the same steps as a memoising inspector, and counts its calls. */
  ghost predicate Counts(c: Count, st: Inspect.State)
  {
    && c.visited == st.visited && c.loop == st.loop && c.counts.Keys == c.visited.Keys
    && forall x :: CountAt(c, x) == Calls(st.log, x)
  }

  ghost function Calls(log: seq<Inspect.Event>, x: Id): nat
  {
    multiset(log)[Inspect.Pre(x)] + multiset(log)[Inspect.Revisit(x)]
  }

  lemma CallsAppend(log: seq<Inspect.Event>, e: Inspect.Event, x: Id)
    ensures Calls(log + [e], x) == Calls(log, x) + if !e.Post? && e.n == x then 1 else 0
  {
    assert multiset(log + [e]) == multiset(log) + multiset{e};
  }

  lemma {:induction false} CountsVisit(g: Nodes, c: Count, st: Inspect.State, p: Ptr)
    requires Counts(c, st) && !st.loop
    ensures Counts(CountVisit(g, c, p), Inspect.Visit(g, ALL, st, p))
    decreases g.Keys - c.counts.Keys, 0, 0
  {
    if p.Ref? && p.id in g && p.id !in c.visited {
      assert p.id in g.Keys - c.counts.Keys;
      CountsEnter(c, st, p.id);
      var st1 := Inspect.Entered(st, p.id);
      CountsKids(g, c.(visited := c.visited[p.id := false], counts := c.counts[p.id := 1]), st1, p.id, 0);
      PostIsNoCall(Inspect.VisitKids(g, ALL, st1, p.id, 0).log, p.id);
    } else if p.Ref? && p.id in g && c.visited[p.id] {
      CountsRevisit(g, c, st, p);
    }
  }

  lemma PostIsNoCall(log: seq<Inspect.Event>, x: Id)
    ensures forall y :: Calls(log + [Inspect.Post(x)], y) == Calls(log, y)
  {
    forall y ensures Calls(log + [Inspect.Post(x)], y) == Calls(log, y) { CallsAppend(log, Inspect.Post(x), y); }
  }

  lemma CountsEnter(c: Count, st: Inspect.State, x: Id)
    requires Counts(c, st) && !st.loop && x !in c.visited
    ensures Counts(c.(visited := c.visited[x := false], counts := c.counts[x := 1]), Inspect.Entered(st, x))
  {
    var c1 := c.(visited := c.visited[x := false], counts := c.counts[x := 1]);
    forall y ensures CountAt(c1, y) == Calls(Inspect.Entered(st, x).log, y) { CallsAppend(st.log, Inspect.Pre(x), y); }
  }

  lemma CountsRevisit(g: Nodes, c: Count, st: Inspect.State, p: Ptr)
    requires Counts(c, st) && !st.loop && p.Ref? && p.id in g && p.id in c.visited && c.visited[p.id]
    ensures Counts(CountVisit(g, c, p), Inspect.Visit(g, ALL, st, p))
  {
    forall x ensures Calls(st.log + [Inspect.Revisit(p.id)], x) == Calls(st.log, x) + if x == p.id then 1 else 0 {
      CallsAppend(st.log, Inspect.Revisit(p.id), x);
    }
  }

  lemma {:induction false} CountsKids(g: Nodes, c: Count, st: Inspect.State, x: Id, i: nat)
    requires Counts(c, st) && !st.loop && x in g
    ensures Counts(CountKids(g, c, x, i), Inspect.VisitKids(g, ALL, st, x, i))
    decreases g.Keys - c.counts.Keys, 1, |Kids(g, x)| - i
  {
    assert Inspect.Kids(g, ALL, x) == Kids(g, x);
    if i < |Kids(g, x)| {
      CountsVisit(g, c, st, Kids(g, x)[i]);
      var c1 := CountVisit(g, c, Kids(g, x)[i]);
      if !c1.loop { CountsKids(g, c1, Inspect.Visit(g, ALL, st, Kids(g, x)[i]), x, i + 1); }
    }
  }

  function CountRun(g: Nodes, root: Id): Count
  {
    CountVisit(g, Count(map[], map[], false), Ref(root))
  }

  /** The nodes reachable from the root, children first. */
  function Order(g: Nodes, root: Id): seq<Id>
  {
    Inspect.Run(g, ALL, root).finished
  }

  /** The number of ways to arrive at `x`. */
  ghost function Arrivals(g: Nodes, root: Id, x: Id): nat
  {
    Inspect.Arrivals(g, ALL, root, Order(g, root), x)
  }

  /** The counting pass finds every edge from a reachable node. */
  lemma CountsArrivals(g: Nodes, root: Id, x: Id)
    requires Inspect.Closed(g) && root in g && !Inspect.LoopReachable(g, ALL, root)
    ensures !CountRun(g, root).loop && CountAt(CountRun(g, root), x) == Arrivals(g, root, x)
  {
    CountsVisit(g, Count(map[], map[], false), Inspect.START, Ref(root));
    Inspect.RunFinished(g, ALL, root);
    assert Inspect.CountedAt(g, ALL, multiset{Ref(root)}, Order(g, root), Inspect.Run(g, ALL, root).log, x);
  }

  // ---------- whole runs ----------

  /** `init_join_flows`: the nodes with more than one arrival that the visitor does not filter out. */
  function JoinPoints<S>(fl: Flow<S>, c: Count): map<Id, Join<S>>
  {
    map x | x in c.counts && c.counts[x] > 1 && !fl.filter(x) :: Join(None, c.counts[x])
  }

  function Begin<S>(fl: Flow<S>, g: Nodes, root: Id, s: S): State<S>
  {
    State(map[], JoinPoints(fl, CountRun(g, root)), s, [], [], {}, false)
  }

  /** `root->apply(visitor)` from the visitor state `s`. */
  function Run<S>(fl: Flow<S>, g: Nodes, root: Id, s: S): State<S>
  {
    Visit(fl, g, Begin(fl, g, root, s), Ref(root))
  }
}
