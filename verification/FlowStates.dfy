/** What flows where: a whole run, its log and the state it ends in, is a plain recursion over the tree
    of its arrivals.  Where no node has two parents, that tree is the one the graph unfolds to. */
module FlowStates {
  import opened Options
  import opened Sequences
  import opened IRGraph
  import opened FlowJoin
  import opened FlowJoinProof
  import Inspect

  /** An arrival.  There was no node; or the node was put off; or it had been visited before; or it was
      entered, where `others` is what the earlier arrivals had left to merge with, and `kids` are the
      arrivals at its children. */
  datatype Call<S> = Nowhere | PutOff(n: Id) | Again(n: Id) | Into(n: Id, others: Option<S>, kids: seq<Call<S>>)

  function Met<S>(fl: Flow<S>, s: S, others: Option<S>): S
  {
    if others.Some? then fl.merge(s, others.value) else s
  }

  /** The state after an arrival in the state `s`. */
  function After<S>(fl: Flow<S>, c: Call<S>, s: S): S
    decreases c, 0
  {
    match c
    case Nowhere => s
    case PutOff(_) => s
    case Again(x) => fl.revisit(x, s)
    case Into(x, others, kids) =>
      var (inside, descend) := fl.pre(x, Met(fl, s, others));
      if !descend then inside
      else if fl.parallel(x) && kids != [] then fl.post(x, Together(fl, kids, inside))
      else fl.post(x, InTurn(fl, kids, inside))
  }

  /** Each child starts where the one before it ended. */
  function InTurn<S>(fl: Flow<S>, kids: seq<Call<S>>, s: S): S
    decreases kids, 1
  {
    if kids == [] then s else After(fl, kids[|kids| - 1], InTurn(fl, kids[..|kids| - 1], s))
  }

  /** Every child starts in the same state, and what they end in is merged, beginning with `dead`. */
  function Together<S>(fl: Flow<S>, kids: seq<Call<S>>, s: S): S
    decreases kids, 1
  {
    if kids == [] then fl.dead
    else fl.merge(Together(fl, kids[..|kids| - 1], s), After(fl, kids[|kids| - 1], s))
  }

  /** The state in which the visitor arrives at the child behind `kids`; `inside` is the one after preorder. */
  function Before<S>(fl: Flow<S>, x: Id, kids: seq<Call<S>>, inside: S): S
  {
    if fl.parallel(x) then inside else InTurn(fl, kids, inside)
  }

  /** The events of an arrival in the state `s`. */
  ghost function Logged<S>(fl: Flow<S>, c: Call<S>, s: S): seq<Event<S>>
    decreases c, 0
  {
    match c
    case Nowhere => []
    case PutOff(x) => [Arrive(x, s)]
    case Again(x) => [Arrive(x, s)]
    case Into(x, others, kids) =>
      var s1 := Met(fl, s, others);
      var (inside, descend) := fl.pre(x, s1);
      [Arrive(x, s), Enter(x, s1)] + if descend then LoggedAll(fl, x, kids, inside) else []
  }

  ghost function LoggedAll<S>(fl: Flow<S>, x: Id, kids: seq<Call<S>>, inside: S): seq<Event<S>>
    decreases kids, 1
  {
    if kids == [] then []
    else
      var rest := kids[..|kids| - 1];
      LoggedAll(fl, x, rest, inside) + Logged(fl, kids[|kids| - 1], Before(fl, x, rest, inside))
  }

  /** `c` is an arrival by the pointer `p` in the state `s`: only join points are put off or find something
      to merge with, and unless preorder prunes, there is an arrival for every child. */
  ghost predicate Fits<S>(fl: Flow<S>, g: Nodes, jp: set<Id>, c: Call<S>, p: Ptr, s: S)
    decreases c, 0
  {
    match c
    case Nowhere => p.Null?
    case PutOff(x) => p == Ref(x) && x in jp
    case Again(x) => p == Ref(x) && x !in jp
    case Into(x, others, kids) =>
      var (inside, descend) := fl.pre(x, Met(fl, s, others));
      && p == Ref(x) && (others.Some? ==> x in jp)
      && (if descend then |kids| == |Kids(g, x)| && FitAll(fl, g, jp, x, kids, inside) else kids == [])
  }

  ghost predicate FitAll<S>(fl: Flow<S>, g: Nodes, jp: set<Id>, x: Id, kids: seq<Call<S>>, inside: S)
    decreases kids, 1
  {
    kids == [] ||
    (var i := |kids| - 1;
     && i < |Kids(g, x)| && FitAll(fl, g, jp, x, kids[..i], inside)
     && Fits(fl, g, jp, kids[i], Kids(g, x)[i], Before(fl, x, kids[..i], inside)))
  }

  // ---------- every run is such a recursion ----------

  /** From `st` to `st'` the visitor went through the arrival `c`. */
  ghost predicate Flowed<S>(fl: Flow<S>, st: State<S>, st': State<S>, c: Call<S>)
  {
    st'.s == After(fl, c, st.s) && st'.log == st.log + Logged(fl, c, st.s)
  }

  lemma {:induction false} VisitFlows<S(!new)>(fl: Flow<S>, g: Nodes, k: Id -> nat, jp: set<Id>, st: State<S>, p: Ptr)
    returns (c: Call<S>)
    requires Sane(fl, g, k, jp, st) && (p.Ref? ==> p.id in g)
    ensures var st' := Visit(fl, g, st, p);
      !st'.loop ==> Fits(fl, g, jp, c, p, st.s) && Flowed(fl, st, st', c)
    decreases g.Keys - st.visited.Keys, 0, 1
  {
    c := Nowhere;
    if p.Ref? {
      var x := p.id;
      var (st1, skip) := JoinFlows(fl, Arrived1(st, x), x);
      if skip {
        c := PutOff(x);
      } else if x in st.visited {
        c := Again(x);
        AgainOk(fl, k, jp, st, x);
      } else {
        c := EnteredFlows(fl, g, k, jp, st, st1, x);
      }
    }
  }

  lemma {:induction false} EnteredFlows<S(!new)>(fl: Flow<S>, g: Nodes, k: Id -> nat, jp: set<Id>, st: State<S>,
                                                 st1: State<S>, x: Id)
    returns (c: Call<S>)
    requires Sane(fl, g, k, jp, st) && x in g && x !in st.visited
    requires JoinFlows(fl, Arrived1(st, x), x) == (st1, false)
    ensures var st' := Visit(fl, g, st, Ref(x));
      !st'.loop ==> Fits(fl, g, jp, c, Ref(x), st.s) && Flowed(fl, st, st', c)
    decreases g.Keys - st.visited.Keys, 0, 0
  {
    var st2 := Entered(fl, st1, x);
    assert x in g.Keys - st.visited.Keys;
    EnterIsOk(fl, k, jp, st, x);
    var kids := [];
    if fl.pre(x, st1.s).1 {
      var st3 := BeforeKids(fl, g, st2, x);
      SameInv(fl, k, jp, st2, st3);
      kids := KidsFlow(fl, g, k, jp, st2, st3, x, []);
    }
    c := Into(x, Waiting(st, x), kids);
    NodeFlows(fl, g, jp, st, st1, x, kids);
  }

  /** What the earlier arrivals at `x` have left. */
  ghost function Waiting<S>(st: State<S>, x: Id): Option<S>
  {
    if x in st.joins then st.joins[x].saved else None
  }

  lemma NodeFlows<S(!new)>(fl: Flow<S>, g: Nodes, jp: set<Id>, st: State<S>, st1: State<S>, x: Id, kids: seq<Call<S>>)
    requires x in g && x !in st.visited && !st.loop && st.joins.Keys == jp
    requires JoinFlows(fl, Arrived1(st, x), x) == (st1, false)
    requires var (inside, descend) := fl.pre(x, st1.s);
      var st2 := Entered(fl, st1, x);
      var st3 := VisitKids(fl, g, BeforeKids(fl, g, st2, x), x, 0, st2.s);
      if descend then !st3.loop ==> |kids| == |Kids(g, x)| && KidsFlowed(fl, g, jp, st2, st3, x, kids) else kids == []
    ensures var st' := Visit(fl, g, st, Ref(x));
      var c := Into(x, Waiting(st, x), kids);
      !st'.loop ==> Fits(fl, g, jp, c, Ref(x), st.s) && Flowed(fl, st, st', c)
  {
    assert st1.s == Met(fl, st.s, Waiting(st, x));
    assert Entered(fl, st1, x).log == st.log + [Arrive(x, st.s), Enter(x, st1.s)];
  }

  /** What the children of `x` have come to so far; `st` is the state before all of them. */
  ghost predicate KidsFlowed<S>(fl: Flow<S>, g: Nodes, jp: set<Id>, st: State<S>, st': State<S>, x: Id,
                                kids: seq<Call<S>>)
  {
    && FitAll(fl, g, jp, x, kids, st.s)
    && st'.s == (if fl.parallel(x) && Kids(g, x) != [] then Together(fl, kids, st.s) else InTurn(fl, kids, st.s))
    && st'.log == st.log + LoggedAll(fl, x, kids, st.s)
  }

  lemma {:induction false} KidsFlow<S(!new)>(fl: Flow<S>, g: Nodes, k: Id -> nat, jp: set<Id>, st: State<S>,
                                             st1: State<S>, x: Id, done: seq<Call<S>>)
    returns (kids: seq<Call<S>>)
    requires Sane(fl, g, k, jp, st1) && x in g && |done| <= |Kids(g, x)|
    requires KidsFlowed(fl, g, jp, st, st1, x, done)
    ensures var st' := VisitKids(fl, g, st1, x, |done|, st.s);
      !st'.loop ==> |kids| == |Kids(g, x)| && KidsFlowed(fl, g, jp, st, st', x, kids)
    decreases g.Keys - st1.visited.Keys, 1, |Kids(g, x)| - |done|
  {
    kids := done;
    var i, ks := |done|, Kids(g, x);
    if i < |ks| {
      assert ks[i] in Ptrs(g[x].kids);
      var st2 := if fl.parallel(x) then st1.(s := st.s) else st1;
      SameInv(fl, k, jp, st1, st2);
      var c := VisitFlows(fl, g, k, jp, st2, ks[i]);
      var st3 := Visit(fl, g, st2, ks[i]);
      if !st3.loop {
        var st4 := if fl.parallel(x) then st3.(s := fl.merge(st1.s, st3.s)) else st3;
        StillSane(fl, g, k, jp, st2, st4, ks[i]);
        OneMoreKid(fl, g, jp, st, st1, st2, st3, x, done, c);
        kids := KidsFlow(fl, g, k, jp, st, st4, x, done + [c]);
      }
    }
  }

  lemma StillSane<S(!new)>(fl: Flow<S>, g: Nodes, k: Id -> nat, jp: set<Id>, st: State<S>, st1: State<S>, p: Ptr)
    requires Sane(fl, g, k, jp, st) && (p.Ref? ==> p.id in g) && !Visit(fl, g, st, p).loop
    requires SameWalk(Visit(fl, g, st, p), st1)
    ensures Sane(fl, g, k, jp, st1)
  {
    var f := VisitWalks(fl, g, k, jp, ALL, st, p);
    SameInv(fl, k, jp, Visit(fl, g, st, p), st1);
  }

  lemma OneMoreKid<S(!new)>(fl: Flow<S>, g: Nodes, jp: set<Id>, st: State<S>, st1: State<S>, st2: State<S>,
                            st3: State<S>, x: Id, done: seq<Call<S>>, c: Call<S>)
    requires |done| < |Kids(g, x)| && KidsFlowed(fl, g, jp, st, st1, x, done)
    requires st2 == (if fl.parallel(x) then st1.(s := st.s) else st1)
    requires Fits(fl, g, jp, c, Kids(g, x)[|done|], st2.s) && Flowed(fl, st2, st3, c)
    ensures var st4 := if fl.parallel(x) then st3.(s := fl.merge(st1.s, st3.s)) else st3;
      KidsFlowed(fl, g, jp, st, st4, x, done + [c])
  {
    var kids := done + [c];
    assert kids[..|done|] == done && kids[|kids| - 1] == c;
    assert st2.s == Before(fl, x, done, st.s);
  }

  /** The run from `root` that begins in the state `s` and ends in `st` went through the arrivals `c`. */
  ghost predicate IsRun<S>(fl: Flow<S>, g: Nodes, root: Id, s: S, st: State<S>, c: Call<S>)
  {
    Fits(fl, g, Joined(fl, g, root), c, Ref(root), s) && st.s == After(fl, c, s) && st.log == Logged(fl, c, s)
  }

  /** A run on an acyclic IR, its log and the state it ends in are those of a recursion over the tree of
      its arrivals: preorder, then the children in turn (or each from the state behind preorder, and
      merged), then postorder; what is put off changes nothing, and what is met again is revisited. */
  lemma RunFlows<S(!new)>(fl: Flow<S>, g: Nodes, root: Id, s: S, k: Id -> nat) returns (c: Call<S>)
    requires Inspect.Closed(g) && root in g && !Inspect.LoopReachable(g, ALL, root) && Commutes(fl.merge)
    requires forall x :: k(x) == Arrivals(g, root, x)
    ensures IsRun(fl, g, root, s, Run(fl, g, root, s), c)
  {
    BeginOk(fl, g, root, s, k);
    RunOver(fl, g, root, s, k);
    c := VisitFlows(fl, g, k, Joined(fl, g, root), Begin(fl, g, root, s), Ref(root));
    assert [] + Logged(fl, c, s) == Logged(fl, c, s);
  }

  // ---------- nothing shared ----------

  /** The tree of arrivals is the one that `p` unfolds to: every arrival enters its node. */
  ghost predicate IsUnfolding<S>(g: Nodes, p: Ptr, c: Call<S>)
    decreases c, 0
  {
    match c
    case Nowhere => p.Null?
    case Into(x, others, kids) => p == Ref(x) && x in g && others.None? && AreUnfoldings(g, Kids(g, x), kids)
    case _ => false
  }

  ghost predicate AreUnfoldings<S>(g: Nodes, ps: seq<Ptr>, kids: seq<Call<S>>)
    decreases kids, 1
  {
    |ps| == |kids| && forall i :: 0 <= i < |kids| ==> IsUnfolding(g, ps[i], kids[i])
  }

  /** Where no loop can be reached, every pointer unfolds to a tree. */
  lemma {:induction false} Unfolding<S>(g: Nodes, root: Id, i: nat) returns (c: Call<S>)
    requires Inspect.Closed(g) && Inspect.BottomUp(g, ALL, root, Order(g, root)) && i < |Order(g, root)|
    requires Order(g, root)[i] in g
    ensures IsUnfolding(g, Ref(Order(g, root)[i]), c)
  {
    var order := Order(g, root);
    var x := order[i];
    var ks, kids: seq<Call<S>> := Kids(g, x), [];
    while |kids| < |ks|
      invariant |kids| <= |ks| && AreUnfoldings(g, ks[..|kids|], kids)
    {
      var p, d: Call<S> := ks[|kids|], Nowhere;
      if p.Ref? {
        assert p in Ptrs(g[x].kids) && Inspect.Edge(g, ALL, x, p.id);
        var j :| 0 <= j < i && order[j] == p.id;
        d := Unfolding<S>(g, root, j);
      }
      kids := kids + [d];
    }
    assert ks[..|ks|] == ks;
    c := Into(x, None, kids);
  }

  /** How many arrivals at `x` did not enter it. */
  ghost function Passing<S>(c: Call<S>, x: Id): nat
    decreases c, 0
  {
    match c
    case Nowhere => 0
    case Into(_, _, kids) => PassingAll(kids, x)
    case _ => if c.n == x then 1 else 0
  }

  ghost function PassingAll<S>(kids: seq<Call<S>>, x: Id): nat
    decreases kids, 1
  {
    if kids == [] then 0 else PassingAll(kids[..|kids| - 1], x) + Passing(kids[|kids| - 1], x)
  }

  lemma {:induction false} Concat<S>(a: seq<Event<S>>, b: seq<Event<S>>, x: Id)
    ensures |States(a + b, x)| == |States(a, x)| + |States(b, x)|
    ensures Entries(a + b, x) == Entries(a, x) + Entries(b, x)
    decreases |b|
  {
    if b == [] {
      assert a + b == a;
    } else {
      var c, e := b[..|b| - 1], b[|b| - 1];
      assert a + b == (a + c) + [e] && b == c + [e];
      Concat(a, c, x);
      LogAppend(a + c, e, x);
      LogAppend(c, e, x);
    }
  }

  lemma ArrivalAlone<S>(n: Id, s: S, x: Id)
    ensures |States([Arrive(n, s)], x)| == (if n == x then 1 else 0) && Entries([Arrive(n, s)], x) == 0
  {
    var nothing: seq<Event<S>> := [];
    LogAppend(nothing, Arrive(n, s), x);
    assert nothing + [Arrive(n, s)] == [Arrive(n, s)];
  }

  lemma EntryAlone<S>(n: Id, s: S, s1: S, x: Id)
    ensures var l := [Arrive(n, s), Enter(n, s1)]; |States(l, x)| == Entries(l, x)
  {
    ArrivalAlone(n, s, x);
    LogAppend([Arrive(n, s)], Enter(n, s1), x);
    assert [Arrive(n, s)] + [Enter(n, s1)] == [Arrive(n, s), Enter(n, s1)];
  }

  /** Every arrival at `x` enters it or does not. */
  lemma {:induction false} Balance<S>(fl: Flow<S>, g: Nodes, jp: set<Id>, c: Call<S>, p: Ptr, s: S, x: Id)
    requires Fits(fl, g, jp, c, p, s)
    ensures var log := Logged(fl, c, s); |States(log, x)| == Entries(log, x) + Passing(c, x)
    decreases c, 0
  {
    if c.Into? {
      var s1 := Met(fl, s, c.others);
      var (inside, descend) := fl.pre(c.n, s1);
      EntryAlone(c.n, s, s1, x);
      if descend {
        BalanceAll(fl, g, jp, c.n, c.kids, inside, x);
        Concat([Arrive(c.n, s), Enter(c.n, s1)], LoggedAll(fl, c.n, c.kids, inside), x);
      } else {
        assert Logged(fl, c, s) == [Arrive(c.n, s), Enter(c.n, s1)];
      }
    } else if !c.Nowhere? {
      ArrivalAlone(c.n, s, x);
    }
  }

  lemma {:induction false} BalanceAll<S>(fl: Flow<S>, g: Nodes, jp: set<Id>, y: Id, kids: seq<Call<S>>, inside: S,
                                         x: Id)
    requires FitAll(fl, g, jp, y, kids, inside)
    ensures var log := LoggedAll(fl, y, kids, inside); |States(log, x)| == Entries(log, x) + PassingAll(kids, x)
    decreases kids, 1
  {
    if kids != [] {
      var i := |kids| - 1;
      var at := Before(fl, y, kids[..i], inside);
      BalanceAll(fl, g, jp, y, kids[..i], inside, x);
      Balance(fl, g, jp, kids[i], Kids(g, y)[i], at, x);
      Concat(LoggedAll(fl, y, kids[..i], inside), Logged(fl, kids[i], at), x);
    }
  }

  /** With no join points, if every arrival enters its node, the tree of arrivals is the unfolded one as
      far as preorder goes. */
  lemma {:induction false} SameFlow<S>(fl: Flow<S>, g: Nodes, c: Call<S>, d: Call<S>, p: Ptr, s: S)
    requires Fits(fl, g, {}, c, p, s) && IsUnfolding(g, p, d) && forall x :: Passing(c, x) == 0
    ensures After(fl, c, s) == After(fl, d, s) && Logged(fl, c, s) == Logged(fl, d, s)
    decreases c, 0
  {
    assert c.PutOff? || c.Again? ==> Passing(c, c.n) == 1;
    if c.Into? {
      var (inside, descend) := fl.pre(c.n, s);
      if descend {
        forall x ensures PassingAll(c.kids, x) == 0 { assert Passing(c, x) == 0; }
        SameFlowAll(fl, g, c.n, c.kids, d.kids, inside);
      }
    }
  }

  lemma {:induction false} SameFlowAll<S>(fl: Flow<S>, g: Nodes, x: Id, c: seq<Call<S>>, d: seq<Call<S>>, inside: S)
    requires FitAll(fl, g, {}, x, c, inside) && |c| == |d| <= |Kids(g, x)| && forall y :: PassingAll(c, y) == 0
    requires AreUnfoldings(g, Kids(g, x)[..|c|], d)
    ensures if fl.parallel(x) then Together(fl, c, inside) == Together(fl, d, inside)
            else InTurn(fl, c, inside) == InTurn(fl, d, inside)
    ensures LoggedAll(fl, x, c, inside) == LoggedAll(fl, x, d, inside)
    decreases c, 1
  {
    if c != [] {
      var i := |c| - 1;
      forall y ensures PassingAll(c[..i], y) == 0 && Passing(c[i], y) == 0 { assert PassingAll(c, y) == 0; }
      SameFlowAll(fl, g, x, c[..i], d[..i], inside);
      SameFlow(fl, g, c[i], d[i], Kids(g, x)[i], Before(fl, x, c[..i], inside));
    }
  }

  /** Where there is at most one arrival, it enters the node. */
  lemma NonePasses<S>(fl: Flow<S>, g: Nodes, root: Id, k: Id -> nat, st: State<S>, c: Call<S>, s: S, x: Id)
    requires Fits(fl, g, {}, c, Ref(root), s) && st.log == Logged(fl, c, s)
    requires Inv(fl, k, {}, st) && Over(g, root, Open(st), st) && k(x) == Arrivals(g, root, x) <= 1
    ensures Passing(c, x) == 0
  {
    Balance(fl, g, {}, c, Ref(root), s, x);
    assert NodeOk(fl, k, st, x) && ArrivedAt(g, Open(st), [], st.log, multiset{Ref(root)}, st.finished, x);
    EdgesCompare(g, Open(st), st.finished, Order(g, root), x);
  }

  /** If no node has two arrivals, a run is the plain recursion over the tree that the root unfolds to. */
  lemma PlainFlow<S(!new)>(fl: Flow<S>, g: Nodes, root: Id, s: S, k: Id -> nat, d: Call<S>)
    requires Inspect.Closed(g) && root in g && !Inspect.LoopReachable(g, ALL, root) && Commutes(fl.merge)
    requires forall x :: k(x) == Arrivals(g, root, x) && k(x) <= 1
    requires IsUnfolding(g, Ref(root), d)
    ensures Run(fl, g, root, s).s == After(fl, d, s) && Run(fl, g, root, s).log == Logged(fl, d, s)
  {
    var c := RunFlows(fl, g, root, s, k);
    forall x ensures x !in Joined(fl, g, root) { JoinedAre(fl, g, root, x); }
    assert Joined(fl, g, root) == {};
    RunOver(fl, g, root, s, k);
    forall x ensures Passing(c, x) == 0 { NonePasses(fl, g, root, k, Run(fl, g, root, s), c, s, x); }
    SameFlow(fl, g, c, d, Ref(root), s);
  }

  /** Such a tree exists. */
  lemma UnfoldingOfRoot<S>(g: Nodes, root: Id) returns (d: Call<S>)
    requires Inspect.Closed(g) && root in g && !Inspect.LoopReachable(g, ALL, root)
    ensures IsUnfolding(g, Ref(root), d)
  {
    Inspect.OnceEach(g, ALL, root);
    assert Inspect.PathTo(g, ALL, root, root, [root]);
    d := Unfolding<S>(g, root, Inspect.Index(Order(g, root), root));
  }
}
