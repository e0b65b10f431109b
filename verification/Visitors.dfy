/** The visitors themselves, as they run: the table, the clones and the graph are updated in place. */
module Visitors {
  import opened IRGraph
  import opened Rewrite
  import opened RewriteSteps
  import opened RewriteProof
  import RewriteKeeps

  class ChangeTracker {
    var visited: map<Id, VisitInfo>

    constructor ()
      ensures visited == map[]
    {
      visited := map[];
    }

    /** `loop`: the node is being visited already, and "IR loop detected" is raised. */
    method Start(n: Id) returns (loop: bool)
      modifies this
      ensures visited == Started(old(visited), n)
      ensures loop <==> n in old(visited) && old(visited)[n].inProgress
    {
      loop := n in visited && visited[n].inProgress;
      if n !in visited {
        visited := visited[n := VisitInfo(true, Ref(n))];
      }
    }

    method Finish(nodes: Nodes, orig: Id, final: Ptr) returns (changed: bool)
      requires orig in visited
      modifies this
      ensures visited == Rewrite.Finish(nodes, old(visited), orig, final)
      ensures changed <==> Differs(nodes, orig, final)
    {
      visited := visited[orig := visited[orig].(inProgress := false)];
      if final.Null? {
        visited := visited[orig := visited[orig].(result := final)];
        return true;
      }
      if final.id != orig && !(final.id in nodes && orig in nodes && nodes[final.id] == nodes[orig]) {
        visited := visited[orig := visited[orig].(result := final)];
        if final.id !in visited {
          visited := visited[final.id := VisitInfo(false, final)];
        }
        return true;
      }
      return false;
    }
  }

  /** The callbacks of a `Modifier`: they change the clone and return nothing. */
  ghost predicate ModifiesInPlace(v: Visitor)
  {
    forall g: Nodes, n: Node, c: Node ::
      v.pre(g, n, c).Go? && !v.pre(g, n, c).anew && v.post(g, n, c).Build? && !v.post(g, n, c).anew
  }

  /** A `Modifier` or a `Transform`: the graph, the clones on the stack and the table. */
  class Rewriter {
    const v: Visitor
    const modifier: bool
    var nodes: Nodes
    var next: Id
    var clones: map<Id, Node>
    var tracker: ChangeTracker
    var bug: bool

    constructor (v: Visitor, modifier: bool, nodes: Nodes, next: Id)
      ensures this.v == v && this.modifier == modifier && this.nodes == nodes && this.next == next
      ensures clones == map[] && !bug
      ensures fresh(tracker) && tracker.visited == map[]
    {
      this.v, this.modifier, this.nodes, this.next, clones, bug := v, modifier, nodes, next, map[], false;
      tracker := new ChangeTracker();
    }

    ghost function AsState(): State
      reads this, tracker
    {
      State(nodes, next, tracker.visited, bug)
    }

    ghost predicate Valid()
      reads this
    {
      (forall c :: c in clones ==> c < next) && (modifier ==> ModifiesInPlace(v))
    }

    /** What `visit_children` does with the child at `i` of a clone when `r` is returned for it; `j` is
        where it goes on. */
    method Replace(c: Id, i: nat, r: Ptr) returns (j: nat)
      requires c in clones && i < |clones[c].kids|
      modifies this`clones
      ensures var ks := old(clones)[c].kids;
        var out := Piece(nodes, ks[i], r);
        && clones == old(clones)[c := Node(old(clones)[c].tag, ks[..i] + out + ks[i + 1..])]
        && j == i + |out|
    {
      var ks := clones[c].kids;
      var s := ks[i];
      j := i + 1;
      if s.kind.One? {
        ks := ks[i := Slot(One, r)];
      } else if r.Null? && s.at != Null {
        ks := ks[..i] + ks[i + 1..];
        j := i;
      } else if r == s.at {
      } else if r.id in nodes && nodes[r.id].tag.vector {
        var l := Rekind(nodes[r.id].kids, s.kind);
        ks := ks[..i] + ks[i + 1..];
        ks := ks[..i] + l + ks[i..];
        j := i + |l|;
      } else {
        ks := ks[i := Slot(s.kind, r)];
      }
      assert ks == clones[c].kids[..i] + Piece(nodes, s, r) + clones[c].kids[i + 1..];
      clones := clones[c := Node(clones[c].tag, ks)];
    }

    /** `copy->visit_children(forward_children)` */
    method ForwardChildren(c: Id)
      requires c in clones
      modifies this`clones
      ensures clones == old(clones)[c := old(clones)[c].(kids := Forward(nodes, tracker.visited, old(clones)[c].kids))]
    {
      ghost var done, todo := [], clones[c].kids;
      var i := 0;
      assert clones[c] == Node(clones[c].tag, done + todo);
      while i < |clones[c].kids|
        invariant c in clones && i == |done| && clones == old(clones)[c := Node(old(clones)[c].tag, done + todo)]
        invariant Forward(nodes, tracker.visited, old(clones)[c].kids) == done + Forward(nodes, tracker.visited, todo)
        decreases |todo|
      {
        var s := clones[c].kids[i];
        assert s == todo[0] && (done + todo)[..i] == done && (done + todo)[i + 1..] == todo[1..];
        var r := if s.at.Ref? && Done(tracker.visited, s.at.id) then Result(tracker.visited, s.at.id) else s.at;
        i := Replace(c, i, r);
        ForwardsOne(nodes, tracker.visited, done, todo);
        done, todo := done + Piece(nodes, s, r), todo[1..];
      }
      assert todo == [] && done + todo == done;
    }

    /** `copy->visit_children(*this)` */
    method VisitChildren(c: Id, d: nat)
      requires c in clones && Valid()
      modifies this, tracker
      ensures tracker == old(tracker) && next >= old(next) && Valid()
      ensures var (st, kids) := VisitAll(v, old(AsState()), old(clones)[c].kids, d);
        AsState() == st && clones == old(clones)[c := Node(old(clones)[c].tag, kids)]
      decreases d, 5
    {
      ghost var st0, ks0, tag, clones0 := AsState(), clones[c].kids, clones[c].tag, clones;
      ghost var done, todo := [], clones[c].kids;
      var i := 0;
      assert clones[c] == Node(tag, done + todo);
      AllDone(v, st0, ks0, d);
      while i < |clones[c].kids|
        invariant tracker == old(tracker) && next >= old(next) && Valid()
        invariant c in clones && i == |done| && clones == clones0[c := Node(tag, done + todo)]
        invariant Leads(VisitAll(v, st0, ks0, d), done, VisitAll(v, AsState(), todo, d))
        decreases |todo|
      {
        var s := clones[c].kids[i];
        assert s == todo[0] && (done + todo)[..i] == done && (done + todo)[i + 1..] == todo[1..];
        ghost var st := AsState();
        var r := ApplyVisitor(s.at, d);
        i := Replace(c, i, r);
        ghost var out := Piece(nodes, s, r);
        OneMore(VisitAll(v, st0, ks0, d), done, out, VisitAll(v, AsState(), todo[1..], d));
        done, todo := done + out, todo[1..];
      }
      assert todo == [] && done + todo == done;
    }

    method ApplyVisitor(n: Ptr, d: nat) returns (r: Ptr)
      requires Valid()
      modifies this, tracker
      ensures tracker == old(tracker) && clones == old(clones) && next >= old(next)
      ensures (AsState(), r) == Visit(v, old(AsState()), n, d)
      decreases d, 4
    {
      if modifier {
        r := ModifierApply(n, d);
      } else {
        r := TransformApply(n, d);
      }
    }

    /** `node->apply(visitor)`, with room for `d` visited nodes on the stack: the input graph is left as
        it was; and on an acyclic IR, where it does not matter what is visited before what, the answer is
        the plain rewrite of the tree, unless the stack overflows. */
    method Apply(root: Ptr, d: nat, ghost m: Meaning, ghost t: Tree) returns (r: Ptr)
      requires modifier ==> ModifiesInPlace(v)
      requires clones == map[] && !bug && forall x :: x in nodes ==> x < next
      modifies this
      ensures clones == map[] && fresh(tracker)
      ensures (AsState(), r) == Run(v, old(nodes), old(next), root, d)
      ensures SubGraph(old(nodes), nodes)
      ensures Sound(v, m, t) && Closed(old(nodes), old(next)) && Unfolds(old(nodes), root, t) ==>
        && (d >= Need(m, t) ==> !bug)
        && (bug || (Unfolds(nodes, r, RewriteTree(m, t)) && (Untouched(v, m, t) ==> r == root)))
    {
      tracker := new ChangeTracker();
      RewriteKeeps.InputIsKept(v, nodes, next, root, d);
      if Sound(v, m, t) && Closed(nodes, next) && Unfolds(nodes, root, t) {
        MemoisedIsPlain(v, m, nodes, next, root, t, d);
      }
      r := ApplyVisitor(root, d);
    }

    /** Start the visit of `x`: clone it and forward its children. */
    method Clone(x: Id) returns (c: Id)
      requires x in nodes && Valid() && !(x in tracker.visited && tracker.visited[x].inProgress)
      modifies this, tracker
      ensures tracker == old(tracker) && Valid()
      ensures AsState() == old(AsState().(next := next + 1, visited := Started(tracker.visited, x)))
      ensures c == old(next) && c !in old(clones)
      ensures clones == old(clones)[c := Cloned(v, old(AsState()), x)]
    {
      var loop := tracker.Start(x);
      c := next;
      next := next + 1;
      clones := clones[c := nodes[x]];
      if v.visitDagOnce && v.forwardChildren {
        ForwardChildren(c);
      }
    }

    /** Preorder is called on the clone. */
    method Ask(x: Id) returns (c: Id, go: PreAction)
      requires x in nodes && Valid() && !(x in tracker.visited && tracker.visited[x].inProgress)
      modifies this, tracker
      ensures tracker == old(tracker) && Valid()
      ensures AsState() == old(AsState().(next := next + 1, visited := Started(tracker.visited, x)))
      ensures c == old(next) && c !in old(clones) && clones == old(clones)[c := Cloned(v, old(AsState()), x)]
      ensures go == Asked(v, old(AsState()), x)
    {
      c := Clone(x);
      go := v.pre(nodes, nodes[x], clones[c]);
    }

    /** Let preorder, which answered `go`, change the clone `c0` of `x` or replace it. */
    method Change(x: Id, c0: Id, go: PreAction, ghost st: State) returns (c: Id, p: Id)
      requires x in st.nodes && go.Go? && Valid() && c0 == st.next
      requires AsState() == st.(next := st.next + 1, visited := Started(st.visited, x))
      requires c0 in clones && clones[c0] == Cloned(v, st, x)
      modifies this, tracker
      ensures tracker == old(tracker) && Valid() && next >= old(next)
      ensures var (st1, f) := Open(v, st, x, go);
        && AsState() == st1 && c == f.clone && p == f.standIn && clones == (old(clones) - {c0})[c := f.copy]
        && c !in old(clones) - {c0}
    {
      var copy := Node(go.tag, Pick(clones[c0].kids, go.sel, NULL));
      c, p := c0, c0;
      clones := clones - {c0};
      if go.anew {
        p, c, next := next, next + 1, next + 2;
        nodes := nodes[p := copy];
        var loop := tracker.Start(p);
      }
      clones := clones[c := copy];
    }

    /** Hand the clone over to the graph. */
    method Release(c: Id)
      requires c in clones
      modifies this`nodes, this`clones
      ensures nodes == old(nodes)[c := old(clones)[c]] && clones == old(clones) - {c}
    {
      nodes := nodes[c := clones[c]];
      clones := clones - {c};
    }

    /** The clone has its final form: hand it over to the graph and finish the visit of `x`. */
    method EndModified(x: Id, c: Id, ghost f: Frame) returns (r: Ptr)
      requires c in clones && x in tracker.visited && f == Frame(c, c, clones[c])
      modifies this`nodes, this`clones, tracker
      ensures (AsState(), r) == Close(Commit(old(AsState()), f, f.copy), x, f, Ref(c))
      ensures clones == old(clones) - {c}
    {
      Release(c);
      var changed := tracker.Finish(nodes, x, Ref(c));
      r := if changed then Ref(c) else Ref(x);
    }

    /** What both visitors do first: `go` is false if the visit is over already. */
    method Enter(n: Ptr, d: nat) returns (go: bool, r: Ptr)
      modifies this`bug
      ensures go ==> AsState() == old(AsState()) && n.Ref? && n.id in nodes && d > 0
      ensures go ==> !(v.visitDagOnce && Done(tracker.visited, n.id))
      ensures go ==> !(n.id in tracker.visited && tracker.visited[n.id].inProgress)
      ensures !go ==> (AsState(), r) == Visit(v, old(AsState()), n, d)
    {
      go, r := false, n;
      if n.Null? || n.id !in nodes { return; }
      if d == 0 {
        bug := true;
        return;
      }
      if v.visitDagOnce && Done(tracker.visited, n.id) {
        r := Result(tracker.visited, n.id);
        return;
      }
      if n.id in tracker.visited && tracker.visited[n.id].inProgress {
        bug := true;
        return;
      }
      go := true;
    }

    /** `Modifier::apply_visitor` */
    method ModifierApply(n: Ptr, d: nat) returns (r: Ptr)
      requires Valid() && modifier
      modifies this, tracker
      ensures tracker == old(tracker) && clones == old(clones) && next >= old(next)
      ensures (AsState(), r) == Visit(v, old(AsState()), n, d)
      decreases d, 3
    {
      var enter;
      enter, r := Enter(n, d);
      if enter { r := ModifierVisit(n.id, d); }
    }

    method ModifierVisit(x: Id, d: nat) returns (r: Ptr)
      requires Valid() && modifier && x in nodes && d > 0
      requires !(v.visitDagOnce && Done(tracker.visited, x)) && !(x in tracker.visited && tracker.visited[x].inProgress)
      modifies this, tracker
      ensures tracker == old(tracker) && clones == old(clones) && next >= old(next)
      ensures (AsState(), r) == Visit(v, old(AsState()), Ref(x), d)
      decreases d, 2
    {
      ghost var st := AsState();
      var c, go := Ask(x);
      VisitSteps(v, st, x, d);
      var _, _ := Change(x, c, go, st);
      if !go.prune { ModifierBody(x, c, go, st, d); }
      r := EndModified(x, c, Frame(c, c, clones[c]));
      assert clones == old(clones);
    }

    /** The children and postorder. */
    method ModifierBody(x: Id, c: Id, go: PreAction, ghost st: State, d: nat)
      requires Valid() && modifier && x in st.nodes && d > 0 && go == Asked(v, st, x) && !go.prune && x in nodes
      requires c in clones && (AsState(), Frame(c, c, clones[c])) == Open(v, st, x, go) && nodes[x] == st.nodes[x]
      modifies this, tracker
      ensures tracker == old(tracker) && next >= old(next) && Valid()
      ensures c in clones && clones == old(clones)[c := clones[c]] && x in tracker.visited
      ensures var f := Frame(c, c, clones[c]);
        var (st3, f', final) := Visited(v, st, x, d);
        Commit(AsState(), f, f.copy) == st3 && f'.clone == f'.standIn == c && final == Ref(c)
      decreases d, 1
    {
      var original := nodes[x];
      VisitChildren(c, d - 1);
      ghost var st2, f := AsState(), Frame(c, c, clones[c]);
      assert (st2, f) == Revisited(v, st, x, go, d);
      var act := v.post(nodes, original, clones[c]);
      var made := PlantAll(nodes, next, act.fields, clones[c].kids);
      nodes, next := made.nodes, made.next;
      clones := clones[c := Node(act.tag, made.value)];
      ghost var g := Frame(c, c, clones[c]);
      assert Commit(AsState(), g, g.copy) == Postordered(st2, f, act).0;
    }

    /** Postorder returns: the clone joins the graph, changed as `act` says. */
    method Postorder(c: Id, act: PostAction, ghost f: Frame) returns (final: Ptr)
      requires c in clones && f.clone == c && f.copy == clones[c]
      modifies this`nodes, this`next, this`clones
      ensures (AsState(), final) == Postordered(old(AsState()), f, act)
      ensures clones == old(clones) - {c} && next >= old(next)
    {
      match act
      case Drop =>
        final := Null;
        Release(c);
      case Take(i) =>
        final := if i < |clones[c].kids| then clones[c].kids[i].at else Null;
        Release(c);
      case Build(tag, fields, anew) =>
        var planted := PlantAll(nodes, next, fields, clones[c].kids);
        nodes, next := planted.nodes, planted.next;
        var made := Node(tag, planted.value);
        if anew {
          Release(c);
          final := Ref(next);
          nodes, next := nodes[next := made], next + 1;
        } else {
          clones := clones[c := made];
          Release(c);
          final := Ref(c);
        }
    }

    method EndTransformed(x: Id, p: Id, extraClone: bool, result: Ptr, ghost f: Frame) returns (r: Ptr)
      requires x in tracker.visited && f.standIn == p && (extraClone <==> f.standIn != f.clone)
      requires extraClone ==> p in tracker.visited
      modifies tracker
      ensures (AsState(), r) == Close(old(AsState()), x, f, result)
    {
      var final := result;
      if final.Ref? && final.id != p && final.id in nodes && p in nodes && nodes[final.id] == nodes[p] {
        final := Ref(p);
      }
      var changed := tracker.Finish(nodes, x, final);
      r := if changed then final else Ref(x);
      if extraClone {
        changed := tracker.Finish(nodes, p, final);
      }
    }

    /** `Transform::apply_visitor` */
    method TransformApply(n: Ptr, d: nat) returns (r: Ptr)
      requires Valid() && !modifier
      modifies this, tracker
      ensures tracker == old(tracker) && clones == old(clones) && next >= old(next)
      ensures (AsState(), r) == Visit(v, old(AsState()), n, d)
      decreases d, 3
    {
      var enter;
      enter, r := Enter(n, d);
      if enter { r := TransformVisit(n.id, d); }
    }

    method TransformVisit(x: Id, d: nat) returns (r: Ptr)
      requires Valid() && !modifier && x in nodes && d > 0
      requires !(v.visitDagOnce && Done(tracker.visited, x)) && !(x in tracker.visited && tracker.visited[x].inProgress)
      modifies this, tracker
      ensures tracker == old(tracker) && clones == old(clones) && next >= old(next)
      ensures (AsState(), r) == Visit(v, old(AsState()), Ref(x), d)
      decreases d, 2
    {
      ghost var st := AsState();
      var original := nodes[x];
      var c0, go := Ask(x);
      if go.Remove? {
        VisitStops(v, st, x, d);
        clones := clones - {c0};
        var changed := tracker.Finish(nodes, x, Null);
        r := Null;
      } else {
        var c, p := Change(x, c0, go, st);
        r := TransformKept(x, original, c, p, go, st, d);
      }
      assert clones == old(clones);
    }

    /** Preorder has left the clone `c`, or a new node `p` and its clone `c`. */
    method TransformKept(x: Id, original: Node, c: Id, p: Id, go: PreAction, ghost st: State, d: nat) returns (r: Ptr)
      requires Valid() && !modifier && x in st.nodes && d > 0 && go == Asked(v, st, x) && go.Go?
      requires !(v.visitDagOnce && Done(st.visited, x)) && !(x in st.visited && st.visited[x].inProgress)
      requires c in clones && (AsState(), Frame(c, p, clones[c])) == Open(v, st, x, go)
      requires original == st.nodes[x]
      modifies this, tracker
      ensures tracker == old(tracker) && clones == old(clones) - {c} && next >= old(next)
      ensures (AsState(), r) == Visit(v, st, Ref(x), d)
      decreases d, 1
    {
      var final := Ref(p);
      ghost var f := Frame(c, p, clones[c]);
      if go.prune {
        Release(c);
      } else {
        VisitChildren(c, d - 1);
        f := Frame(c, p, clones[c]);
        assert (AsState(), f) == Revisited(v, st, x, go, d);
        final := Postorder(c, v.post(nodes, original, clones[c]), f);
      }
      assert (AsState(), f, final) == Visited(v, st, x, d);
      VisitSteps(v, st, x, d);
      r := EndTransformed(x, p, go.anew, final, f);
    }
  }

  /** What has been visited and what is still to be visited make the whole. */
  ghost predicate Leads(
    whole: (State, seq<Slot<Ptr>>), done: seq<Slot<Ptr>>, rest: (State, seq<Slot<Ptr>>))
  {
    whole == (rest.0, done + rest.1)
  }

  lemma ForwardsOne(g: Nodes, visited: map<Id, VisitInfo>, done: seq<Slot<Ptr>>, todo: seq<Slot<Ptr>>)
    requires todo != []
    ensures done + Forward(g, visited, todo)
         == done + Piece(g, todo[0], Known(visited, todo[0].at)) + Forward(g, visited, todo[1..])
  {}

  lemma AllDone(v: Visitor, st: State, ks: seq<Slot<Ptr>>, d: nat)
    ensures Leads(VisitAll(v, st, ks, d), [], VisitAll(v, st, ks, d))
  {
    var (_, out) := VisitAll(v, st, ks, d);
    assert [] + out == out;
  }

  lemma OneMore(
    whole: (State, seq<Slot<Ptr>>), done: seq<Slot<Ptr>>, out: seq<Slot<Ptr>>, rest: (State, seq<Slot<Ptr>>))
    requires Leads(whole, done, (rest.0, out + rest.1))
    ensures Leads(whole, done + out, rest)
  {
    assert done + (out + rest.1) == done + out + rest.1;
  }
}
