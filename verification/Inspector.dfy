/** The `Inspector` as it runs, against the walk of module `Inspect`. */
module Inspectors {
  import opened IRGraph
  import opened Inspect
  import InspectCalls

  class Inspector {
    const g: Nodes
    const pre: Id -> bool
    var visited: map<Id, bool>
    var log: seq<Event>
    ghost var finished: seq<Id>

    constructor (g: Nodes, pre: Id -> bool)
      ensures this.g == g && this.pre == pre && AsState(false) == START
    {
      this.g, this.pre, visited, log, finished := g, pre, map[], [], [];
    }

    ghost function AsState(loop: bool): State
      reads this
    {
      State(visited, log, finished, loop)
    }

    /** `Inspector::apply_visitor`; `loop` stands for the exception. */
    method ApplyVisitor(p: Ptr) returns (loop: bool)
      requires Sane(g, AsState(false)) && (p.Ref? ==> p.id in g)
      modifies this
      ensures AsState(loop) == Visit(g, pre, old(AsState(false)), p)
      ensures visited.Keys <= g.Keys
      decreases g.Keys - visited.Keys, 0
    {
      if p.Null? { return false; }
      var x := p.id;
      var known := x in visited;
      if known && !visited[x] { return true; }
      if known {
        log := log + [Revisit(x)];
        return false;
      }
      assert x in g.Keys - visited.Keys;
      visited := visited[x := false];
      log := log + [Pre(x)];
      if pre(x) {
        loop := VisitChildren(x);
        if loop { return; }
        log := log + [Post(x)];
      } else {
        loop := false;
      }
      visited := visited[x := true];
      finished := finished + [x];
    }

    /** `n->visit_children(*this)` */
    method VisitChildren(x: Id) returns (loop: bool)
      requires Sane(g, AsState(false)) && x in g && pre(x)
      modifies this
      ensures AsState(loop) == VisitKids(g, pre, old(AsState(false)), x, 0)
      ensures visited.Keys <= g.Keys
      decreases g.Keys - visited.Keys, 1
    {
      var i := 0;
      while i < |g[x].kids|
        invariant i <= |g[x].kids| && Sane(g, AsState(false)) && old(visited).Keys <= visited.Keys
        invariant VisitKids(g, pre, old(AsState(false)), x, 0) == VisitKids(g, pre, AsState(false), x, i)
        decreases |g[x].kids| - i
      {
        assert Ptrs(g[x].kids)[i] == g[x].kids[i].at;
        loop := ApplyVisitor(g[x].kids[i].at);
        if loop { return; }
        i := i + 1;
      }
      loop := false;
    }

    /** `root->apply(inspector)`: a loop is reported exactly if the root reaches one. */
    method Apply(root: Id) returns (loop: bool)
      requires Closed(g) && root in g
      modifies this
      ensures loop <==> LoopReachable(g, pre, root)
      ensures !loop ==> forall x :: VisitedOnce(g, pre, root, AsState(false), x)
      ensures !loop ==> BottomUp(g, pre, root, finished) && LogOrdered(g, pre, log)
      ensures !loop ==> InspectCalls.RevisitsLater(pre, log)
      ensures !loop ==> exists c :: InspectCalls.Fits(g, pre, c, Ref(root)) && log == InspectCalls.Logged(pre, c)
    {
      visited, log, finished := map[], [], [];
      loop := ApplyVisitor(Ref(root));
      LoopIffReachable(g, pre, root);
      if !loop {
        OnceEach(g, pre, root);
        ghost var c := InspectCalls.RunCalls(g, pre, root);
      }
    }
  }
}
