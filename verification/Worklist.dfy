/**
 `forAllEvaluatedBlocks`: a worklist over the blocks under a top-level block.  A block is a node whose
 children are the values of its `constantValue` map; a value that is not a block is null.
 */
module Worklist {
  import opened Sequences
  import opened IRGraph
  import opened Inspect

  const ANY: Id -> bool := (x: Id) => true

  /** `level` is where a breadth-first search finds the blocks of `q`: never decreasing along `q`, and
      at most one more than that of the block at `head`. */
  ghost predicate Levelled(q: seq<Id>, level: map<Id, nat>, head: nat)
  {
    && (forall x :: x in q ==> x in level)
    && (forall i, j :: 0 <= i < j < |q| ==> level[q[i]] <= level[q[j]])
    && (head < |q| ==> forall j :: 0 <= j < |q| ==> level[q[j]] <= level[q[head]] + 1)
  }

  /** There is a walk of `n` edges from `root` to `x`. */
  ghost predicate At(g: Nodes, root: Id, x: Id, n: nat)
  {
    exists p :: PathTo(g, ANY, root, x, p) && |p| == n + 1
  }

  /** Every edge that leaves a block of `q` before `head` ends in `q`, at most one level deeper. */
  ghost predicate Expanded(g: Nodes, q: seq<Id>, level: map<Id, nat>, head: nat)
    requires forall x :: x in q ==> x in level
  {
    forall i, y :: 0 <= i < head && i < |q| && Edge(g, ANY, q[i], y) ==> y in q && level[y] <= level[q[i]] + 1
  }

  /** Everything met so far, in the order it was met: first the visited blocks, then the frontier. */
  ghost predicate Searching(g: Nodes, root: Id, order: seq<Id>, frontier: seq<Id>, level: map<Id, nat>)
  {
    var q := order + frontier;
    && Distinct(q) && root in q && Levelled(q, level, |order|)
    && (forall x :: x in q ==> x in g && At(g, root, x, level[x]))
    && root in level && level[root] == 0
    && Expanded(g, q, level, |order|)
  }

  /** No walk reaches a block earlier than the level it was met on. */
  lemma {:induction false} LevelIsLeast(g: Nodes, root: Id, order: seq<Id>, level: map<Id, nat>, p: seq<Id>, i: nat)
    requires Searching(g, root, order, [], level) && IsPath(g, ANY, p) && p[0] == root && i < |p|
    ensures p[i] in order && level[p[i]] <= i
    decreases i
  {
    assert order + [] == order;
    if i > 0 {
      LevelIsLeast(g, root, order, level, p, i - 1);
      var j :| 0 <= j < |order| && order[j] == p[i - 1];
      assert Edge(g, ANY, (order + [])[j], p[i]);
    }
  }

  /** `function` is called on the blocks of `order`: on each block reachable from the top level exactly
      once, in breadth-first order, whatever cycles there are; `level` is the length of the shortest
      walk to each. */
  method ForAllEvaluatedBlocks(g: Nodes, top: Id) returns (order: seq<Id>, ghost level: map<Id, nat>)
    requires Closed(g) && top in g
    ensures Distinct(order) && forall x :: x in order <==> Reachable(g, ANY, top, x)
    ensures forall x :: x in order ==> x in level && At(g, top, x, level[x])
    ensures forall x, n: nat :: x in order && At(g, top, x, n) ==> level[x] <= n
    ensures forall i, j :: 0 <= i < j < |order| ==> level[order[i]] <= level[order[j]]
  {
    var visited: set<Id> := {};
    var frontier := [top];
    order, level := [], map[top := 0];
    assert PathTo(g, ANY, top, top, [top]);
    while frontier != []
      invariant Searching(g, top, order, frontier, level)
      invariant forall x :: x in visited <==> x in order
      invariant visited <= g.Keys
      invariant forall x :: x in frontier ==> x !in visited
      decreases g.Keys - visited
    {
      var block := frontier[0];
      Pop(g, top, order, frontier, level);
      frontier := frontier[1..];
      visited := visited + {block};
      order := order + [block];
      frontier, level := AddChildren(g, top, visited, order, frontier, block, level);
    }
    assert order + [] == order;
    AllFound(g, top, order, level);
  }

  /** The first block of the frontier becomes the last one visited. */
  lemma Pop(g: Nodes, top: Id, order: seq<Id>, frontier: seq<Id>, level: map<Id, nat>)
    requires Searching(g, top, order, frontier, level) && frontier != []
    ensures frontier[0] in g && frontier[0] !in order
    ensures Expanding(g, top, order + [frontier[0]], frontier[1..], level, 0)
  {
    var block := frontier[0];
    assert block in frontier && block in order + frontier;
    NotBoth(order, frontier, block);
    assert order + frontier == (order + [block]) + frontier[1..];
    PopAt(g, top, order + frontier, |order|, level);
  }

  lemma PopAt(g: Nodes, top: Id, q: seq<Id>, h: nat, level: map<Id, nat>)
    requires h < |q| && Distinct(q) && top in q && Levelled(q, level, h) && Expanded(g, q, level, h)
    requires (forall x :: x in q ==> x in g && At(g, top, x, level[x])) && top in level && level[top] == 0
    ensures ExpandingAt(g, top, q, h, level, 0)
  {
    assert q[h] in q;
  }

  /** Once the frontier is empty, the search has found what is reachable, on the least level. */
  lemma AllFound(g: Nodes, top: Id, order: seq<Id>, level: map<Id, nat>)
    requires Searching(g, top, order, [], level)
    ensures forall x :: x in order <==> Reachable(g, ANY, top, x)
    ensures forall x, n: nat :: x in order && At(g, top, x, n) ==> level[x] <= n
  {
    assert order + [] == order;
    forall x ensures x in order <==> Reachable(g, ANY, top, x) {
      if x in order { assert At(g, top, x, level[x]); }
      if Reachable(g, ANY, top, x) {
        var p :| PathTo(g, ANY, top, x, p);
        LevelIsLeast(g, top, order, level, p, |p| - 1);
      }
    }
    forall x, n: nat | x in order && At(g, top, x, n) ensures level[x] <= n {
      var p :| PathTo(g, ANY, top, x, p) && |p| == n + 1;
      LevelIsLeast(g, top, order, level, p, n);
    }
  }

  /** The last block of `order` is being expanded: its first `n` children have been met. */
  ghost predicate Expanding(g: Nodes, root: Id, order: seq<Id>, frontier: seq<Id>, level: map<Id, nat>, n: nat)
  {
    order != [] && ExpandingAt(g, root, order + frontier, |order| - 1, level, n)
  }

  ghost predicate ExpandingAt(g: Nodes, root: Id, q: seq<Id>, h: nat, level: map<Id, nat>, n: nat)
  {
    && h < |q| && Distinct(q) && root in q && Levelled(q, level, h)
    && (forall x :: x in q ==> x in g && At(g, root, x, level[x]))
    && root in level && level[root] == 0
    && Expanded(g, q, level, h)
    && KidsMet(g, q, level, q[h], n)
  }

  ghost predicate KidsMet(g: Nodes, q: seq<Id>, level: map<Id, nat>, block: Id, n: nat)
  {
    && block in g && n <= |g[block].kids|
    && forall i :: 0 <= i < n && g[block].kids[i].at.Ref? ==> Met(q, level, block, g[block].kids[i].at.id)
  }

  ghost predicate Met(q: seq<Id>, level: map<Id, nat>, block: Id, y: Id)
  {
    y in q && y in level && block in level && level[y] <= level[block] + 1
  }

  /** Add the children of `block` that have not been visited to the frontier, an ordered set. */
  method AddChildren(g: Nodes, top: Id, visited: set<Id>, ghost order: seq<Id>, frontier0: seq<Id>, block: Id,
                     ghost level0: map<Id, nat>)
    returns (frontier: seq<Id>, ghost level: map<Id, nat>)
    requires Closed(g) && Expanding(g, top, order, frontier0, level0, 0) && block == order[|order| - 1]
    requires forall x :: x in visited <==> x in order
    ensures Searching(g, top, order, frontier, level) && forall x :: x in frontier ==> x !in visited
  {
    frontier, level := frontier0, level0;
    InGraph(g, top, order, frontier, level);
    var i := 0;
    while i < |g[block].kids|
      invariant Expanding(g, top, order, frontier, level, i)
    {
      var child := g[block].kids[i].at;
      if child.Ref? && child.id !in visited && child.id !in frontier {
        MeetChild(g, top, order, frontier, level, i, block, child.id);
        frontier, level := frontier + [child.id], level[child.id := level[block] + 1];
      } else {
        PassChild(g, top, order, frontier, level, i);
      }
      i := i + 1;
    }
    BlockExpanded(g, top, order, frontier, level);
    forall x | x in frontier ensures x !in visited { NotBoth(order, frontier, x); }
  }

  lemma InGraph(g: Nodes, root: Id, order: seq<Id>, frontier: seq<Id>, level: map<Id, nat>)
    requires Expanding(g, root, order, frontier, level, 0)
    ensures order[|order| - 1] in g
  {
    assert (order + frontier)[|order| - 1] in order + frontier;
  }

  /** A child that has been met already, or is no block. */
  lemma PassChild(g: Nodes, root: Id, order: seq<Id>, frontier: seq<Id>, level: map<Id, nat>, i: nat)
    requires Expanding(g, root, order, frontier, level, i) && i < |g[order[|order| - 1]].kids|
    requires (var child := g[order[|order| - 1]].kids[i].at; child.Ref? ==> child.id in order || child.id in frontier)
    ensures Expanding(g, root, order, frontier, level, i + 1)
  {
    var q, block := order + frontier, order[|order| - 1];
    forall j | 0 <= j < i + 1 && g[block].kids[j].at.Ref? ensures Met(q, level, block, g[block].kids[j].at.id) {
      if j == i { KnownChild(order, frontier, level, g[block].kids[j].at.id); }
    }
  }

  lemma NotBoth(a: seq<Id>, b: seq<Id>, x: Id)
    requires Distinct(a + b) && x in b
    ensures x !in a
  {
    var j :| 0 <= j < |b| && b[j] == x;
    assert (a + b)[|a| + j] == x;
    assert forall i :: 0 <= i < |a| ==> a[i] == (a + b)[i];
  }

  lemma MeetChild(g: Nodes, root: Id, order: seq<Id>, frontier: seq<Id>, level: map<Id, nat>, i: nat, block: Id,
                  child: Id)
    requires Closed(g) && Expanding(g, root, order, frontier, level, i) && block == order[|order| - 1]
      && i < |g[block].kids|
    requires g[block].kids[i].at == Ref(child) && child !in order && child !in frontier
    ensures Expanding(g, root, order, frontier + [child], level[child := level[block] + 1], i + 1)
  {
    assert order + (frontier + [child]) == (order + frontier) + [child];
    MeetNext(g, root, order + frontier, |order| - 1, level, i, child);
  }

  lemma MeetNext(g: Nodes, root: Id, q: seq<Id>, h: nat, level: map<Id, nat>, i: nat, child: Id)
    requires Closed(g) && ExpandingAt(g, root, q, h, level, i) && i < |g[q[h]].kids|
      && g[q[h]].kids[i].at == Ref(child) && child !in q
    ensures ExpandingAt(g, root, q + [child], h, level[child := level[q[h]] + 1], i + 1)
  {
    var block, n := q[h], level[q[h]] + 1;
    assert block in q && Ptrs(g[block].kids)[i] in Ptrs(g[block].kids);
    OneFurther(g, root, block, child, level[block]);
    LevelledChild(q, level, h, child);
    ExpandedChild(g, q, level, h, child, n);
    KidsMetChild(g, q, level, block, i, child, n);
  }

  lemma KidsMetChild(g: Nodes, q: seq<Id>, level: map<Id, nat>, block: Id, i: nat, child: Id, n: nat)
    requires KidsMet(g, q, level, block, i) && i < |g[block].kids| && g[block].kids[i].at == Ref(child)
    requires block in level && n == level[block] + 1 && child != block && child !in q
    ensures KidsMet(g, q + [child], level[child := n], block, i + 1)
  {
    forall j | 0 <= j < i + 1 && g[block].kids[j].at.Ref?
      ensures Met(q + [child], level[child := n], block, g[block].kids[j].at.id) {
      if j < i { assert Met(q, level, block, g[block].kids[j].at.id); }
    }
  }

  lemma OneFurther(g: Nodes, root: Id, x: Id, y: Id, n: nat)
    requires At(g, root, x, n) && Edge(g, ANY, x, y)
    ensures At(g, root, y, n + 1)
  {
    var p :| PathTo(g, ANY, root, x, p) && |p| == n + 1;
    assert PathTo(g, ANY, root, y, p + [y]);
  }

  lemma LevelledChild(q: seq<Id>, level: map<Id, nat>, h: nat, child: Id)
    requires Levelled(q, level, h) && h < |q| && child !in q && Distinct(q)
    ensures Levelled(q + [child], level[child := level[q[h]] + 1], h) && Distinct(q + [child])
  {
    var q', level' := q + [child], level[child := level[q[h]] + 1];
    forall i | 0 <= i < |q| ensures q'[i] == q[i] && q[i] in q && level'[q[i]] == level[q[i]] { }
  }

  lemma ExpandedChild(g: Nodes, q: seq<Id>, level: map<Id, nat>, h: nat, child: Id, n: nat)
    requires (forall x :: x in q ==> x in level) && Expanded(g, q, level, h) && h < |q| && child !in q
    ensures Expanded(g, q + [child], level[child := n], h)
  {
    var q', level' := q + [child], level[child := n];
    forall i, y | 0 <= i < h && i < |q'| && Edge(g, ANY, q'[i], y) ensures y in q' && level'[y] <= level'[q'[i]] + 1 {
      assert q'[i] == q[i] && q[i] in q;
    }
  }

  /** A child that is known already. */
  lemma KnownChild(order: seq<Id>, frontier: seq<Id>, level: map<Id, nat>, y: Id)
    requires order != [] && Levelled(order + frontier, level, |order| - 1) && y in order + frontier
    ensures Met(order + frontier, level, order[|order| - 1], y)
  {
    var q := order + frontier;
    var j :| 0 <= j < |q| && q[j] == y;
    assert q[|order| - 1] in q;
  }

  lemma BlockExpanded(g: Nodes, root: Id, order: seq<Id>, frontier: seq<Id>, level: map<Id, nat>)
    requires order != [] && order[|order| - 1] in g
    requires Expanding(g, root, order, frontier, level, |g[order[|order| - 1]].kids|)
    ensures Searching(g, root, order, frontier, level)
  {
    var q, h := order + frontier, |order| - 1;
    forall i, y | 0 <= i < |order| && Edge(g, ANY, q[i], y) ensures y in q && level[y] <= level[q[i]] + 1 {
      if i == h {
        var j :| 0 <= j < |g[q[h]].kids| && g[q[h]].kids[j].at == Ref(y);
        assert Met(q, level, q[h], y);
      }
    }
    if |order| < |q| {
      forall j | 0 <= j < |q| ensures level[q[j]] <= level[q[|order|]] + 1 {
        assert level[q[h]] <= level[q[|order|]];
      }
    }
  }
}
