/** `SetupJoinPoints` and `ControlFlowVisitor` as they run, against the walks of module `FlowJoin`. */
module FlowInspectors {
  import opened Options
  import opened IRGraph
  import opened FlowJoin
  import FlowJoinProof
  import FlowStates
  import Inspect

  class SetupJoinPoints {
    const g: Nodes
    var visited: map<Id, bool>
    var counts: map<Id, Positive>

    constructor (g: Nodes)
      ensures this.g == g && AsCount(false) == Count(map[], map[], false)
    {
      this.g, visited, counts := g, map[], map[];
    }

    ghost function AsCount(loop: bool): Count
      reads this
    {
      Count(visited, counts, loop)
    }

    /** `preorder`: count the arrival; descend at the first one only. */
    method Preorder(x: Id) returns (descend: bool)
      modifies this`counts
      ensures counts == old(counts)[x := CountAt(old(AsCount(false)), x) + 1]
      ensures descend <==> CountAt(AsCount(false), x) == 1
    {
      var n: Positive := if x in counts then counts[x] + 1 else 1;
      counts := counts[x := n];
      descend := n == 1;
    }

    method ApplyVisitor(p: Ptr) returns (loop: bool)
      requires p.Ref? ==> p.id in g
      requires Inspect.Closed(g) && counts.Keys <= g.Keys
      modifies this
      ensures AsCount(loop) == CountVisit(g, old(AsCount(false)), p)
      ensures counts.Keys <= g.Keys
      decreases g.Keys - counts.Keys, 0
    {
      if p.Null? { return false; }
      var x := p.id;
      if x in visited && !visited[x] { return true; }
      visited := visited[x := false];
      assert x in g.Keys - counts.Keys || x in counts;
      var descend := Preorder(x);
      if descend {
        loop := VisitChildren(x);
        if loop { return; }
      }
      visited := visited[x := true];
      loop := false;
    }

    method VisitChildren(x: Id) returns (loop: bool)
      requires x in g && Inspect.Closed(g) && counts.Keys <= g.Keys
      modifies this
      ensures AsCount(loop) == CountKids(g, old(AsCount(false)), x, 0)
      ensures counts.Keys <= g.Keys
      decreases g.Keys - counts.Keys, 1
    {
      var i := 0;
      while i < |g[x].kids|
        invariant i <= |g[x].kids| && old(counts).Keys <= counts.Keys <= g.Keys
        invariant CountKids(g, old(AsCount(false)), x, 0) == CountKids(g, AsCount(false), x, i)
        decreases |g[x].kids| - i
      {
        assert Ptrs(g[x].kids)[i] == g[x].kids[i].at;
        loop := ApplyVisitor(g[x].kids[i].at);
        if loop { return; }
        i := i + 1;
      }
      loop := false;
    }
  }

  /** A `ControlFlowVisitor` with `joinFlows` set.  Its clones share the table of visited nodes and
      the join points; `s` is the rest of the state of the visitor that is active. */
  class ControlFlowVisitor<S(!new)> {
    const fl: Flow<S>
    const g: Nodes
    var visited: map<Id, bool>
    var joins: map<Id, Join<S>>
    var s: S
    ghost var log: seq<Event<S>>
    ghost var finished: seq<Id>
    ghost var cut: set<Id>

    constructor (fl: Flow<S>, g: Nodes, s: S)
      ensures this.fl == fl && this.g == g && this.s == s && AsState(false) == State(map[], map[], s, [], [], {}, false)
    {
      this.fl, this.g, this.s, visited, joins, log, finished, cut := fl, g, s, map[], map[], [], [], {};
    }

    ghost function AsState(loop: bool): State<S>
      reads this
    {
      State(visited, joins, s, log, finished, cut, loop)
    }

    /** `init_join_flows`: count, then keep the entries above one that are not filtered out. */
    method InitJoinFlows(root: Id) returns (loop: bool)
      requires Inspect.Closed(g) && root in g
      modifies this`joins
      ensures loop <==> CountRun(g, root).loop
      ensures !loop ==> joins == JoinPoints(fl, CountRun(g, root))
    {
      var counter := new SetupJoinPoints(g);
      loop := counter.ApplyVisitor(Ref(root));
      if !loop {
        joins := map x | x in counter.counts && counter.counts[x] > 1 && !fl.filter(x) :: Join(None, counter.counts[x]);
      }
    }

    method TestJoinFlows(x: Id) returns (skip: bool)
      modifies this`joins, this`s
      ensures (AsState(false), skip) == JoinFlows(fl, old(AsState(false)), x)
    {
      if x !in joins { return false; }
      joins := joins[x := joins[x].(left := joins[x].left - 1)];
      if joins[x].left == 0 {
        if joins[x].saved.Some? {
          s := fl.merge(s, joins[x].saved.value);
        }
        return false;
      }
      if joins[x].saved.Some? {
        joins := joins[x := joins[x].(saved := Some(fl.merge(joins[x].saved.value, s)))];
      } else {
        joins := joins[x := joins[x].(saved := Some(s))];
      }
      assert joins == old(joins)[x := joins[x]];
      return true;
    }

    method ApplyVisitor(p: Ptr) returns (loop: bool)
      requires Inspect.Closed(g) && visited.Keys <= g.Keys && (p.Ref? ==> p.id in g)
      modifies this
      ensures AsState(loop) == Visit(fl, g, old(AsState(false)), p)
      ensures visited.Keys <= g.Keys
      decreases g.Keys - visited.Keys, 0
    {
      if p.Null? { return false; }
      var x := p.id;
      log := log + [Arrive(x, s)];
      var skip := TestJoinFlows(x);
      if skip { return false; }
      var known := x in visited;
      if known && !visited[x] { return true; }
      if known {
        s := fl.revisit(x, s);
        return false;
      }
      assert x in g.Keys - visited.Keys;
      visited := visited[x := false];
      log := log + [Enter(x, s)];
      var before := s;
      s := fl.pre(x, before).0;
      if fl.pre(x, before).1 {
        loop := VisitChildren(x);
        if loop { return; }
        s := fl.post(x, s);
      } else {
        cut := cut + {x};
        loop := false;
      }
      visited := visited[x := true];
      finished := finished + [x];
    }

    /** `visit_children`, or `parallel_visit_children` for the nodes that use it. */
    method VisitChildren(x: Id) returns (loop: bool)
      requires x in g && Inspect.Closed(g) && visited.Keys <= g.Keys
      modifies this
      ensures AsState(loop) == VisitKids(fl, g, BeforeKids(fl, g, old(AsState(false)), x), x, 0, old(s))
      ensures visited.Keys <= g.Keys
      decreases g.Keys - visited.Keys, 1
    {
      var start := s;
      if fl.parallel(x) && g[x].kids != [] {
        s := fl.dead;
      }
      var i := 0;
      while i < |g[x].kids|
        invariant i <= |g[x].kids| && old(visited).Keys <= visited.Keys <= g.Keys
        invariant VisitKids(fl, g, BeforeKids(fl, g, old(AsState(false)), x), x, 0, old(s))
          == VisitKids(fl, g, AsState(false), x, i, start)
        decreases |g[x].kids| - i
      {
        assert Ptrs(g[x].kids)[i] == g[x].kids[i].at;
        var acc := s;
        if fl.parallel(x) {
          s := start;
        }
        loop := ApplyVisitor(g[x].kids[i].at);
        if loop { return; }
        if fl.parallel(x) {
          s := fl.merge(acc, s);
        }
        i := i + 1;
      }
      loop := false;
    }

    /** `root->apply(visitor)` on an acyclic IR: who is entered, and which state comes from where. */
    method Apply(root: Id, ghost k: Id -> nat) returns (loop: bool)
      requires Inspect.Closed(g) && root in g && !Inspect.LoopReachable(g, ALL, root)
        && FlowJoinProof.Commutes(fl.merge)
      requires forall x :: k(x) == Arrivals(g, root, x)
      requires AsState(false) == State(map[], map[], s, [], [], {}, false)
      modifies this
      ensures !loop && AsState(false) == Run(fl, g, root, old(s))
      ensures forall x :: FlowJoinProof.EnteredIff(g, root, FlowJoinProof.Joined(fl, g, root), AsState(false), x)
      ensures FlowJoinProof.EntriesOk(fl, k, FlowJoinProof.Joined(fl, g, root), log)
      ensures cut == {} ==> forall x :: FlowJoinProof.Awaited(g, root, AsState(false), x)
      ensures exists c :: FlowStates.IsRun(fl, g, root, old(s), AsState(false), c)
    {
      CountsArrivals(g, root, root);
      FlowJoinProof.WhoIsEntered(fl, g, root, s, k);
      ghost var c := FlowStates.RunFlows(fl, g, root, s, k);
      if Run(fl, g, root, s).cut == {} { FlowJoinProof.EveryPredecessorIsAwaited(fl, g, root, s, k); }
      loop := InitJoinFlows(root);
      loop := ApplyVisitor(Ref(root));
    }
  }
}
