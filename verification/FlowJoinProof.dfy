/** Flow joining waits for every predecessor and merges what they bring. */
module FlowJoinProof {
  import opened Options
  import opened Sequences
  import opened IRGraph
  import opened FlowJoin
  import Inspect

  /** The states in which the visitor has arrived at `x`, in order. */
  ghost function States<S>(log: seq<Event<S>>, x: Id): seq<S>
  {
    if log == [] then []
    else
      var e := log[|log| - 1];
      var q := States(log[..|log| - 1], x);
      if e.Arrive? && e.n == x then q + [e.s] else q
  }

  /** How often `x` has been entered. */
  ghost function Entries<S>(log: seq<Event<S>>, x: Id): nat
  {
    if log == [] then 0
    else
      var e := log[|log| - 1];
      Entries(log[..|log| - 1], x) + if e.Enter? && e.n == x then 1 else 0
  }

  lemma LogAppend<S>(log: seq<Event<S>>, e: Event<S>, x: Id)
    ensures States(log + [e], x) == if e.Arrive? && e.n == x then States(log, x) + [e.s] else States(log, x)
    ensures Entries(log + [e], x) == Entries(log, x) + if e.Enter? && e.n == x then 1 else 0
  {
    assert (log + [e])[..|log|] == log;
  }

  ghost function Fold<S>(merge: (S, S) -> S, q: seq<S>): S
    requires q != []
  {
    if |q| == 1 then q[0] else merge(Fold(merge, q[..|q| - 1]), q[|q| - 1])
  }

  lemma FoldAppend<S>(merge: (S, S) -> S, q: seq<S>, s: S)
    requires q != []
    ensures Fold(merge, q + [s]) == merge(Fold(merge, q), s)
  {
    assert (q + [s])[..|q|] == q;
  }

  ghost predicate Commutes<S(!new)>(merge: (S, S) -> S)
  {
    forall a, b :: merge(a, b) == merge(b, a)
  }

  /** How many arrivals `x` waits for. */
  ghost function Due(k: Id -> nat, jp: set<Id>, x: Id): nat
  {
    if x in jp then k(x) else 1
  }

  ghost predicate NodeOk<S>(fl: Flow<S>, k: Id -> nat, st: State<S>, x: Id)
  {
    && Entries(st.log, x) == (if x in st.visited then 1 else 0)
    && StatesOk(fl, k, st, x, States(st.log, x))
  }

  /** What is kept for `x` after arrivals in the states `q`. */
  ghost predicate StatesOk<S>(fl: Flow<S>, k: Id -> nat, st: State<S>, x: Id, q: seq<S>)
  {
    && (x in st.visited <==> |q| >= Due(k, st.joins.Keys, x))
    && (x in st.joins ==>
          && k(x) > 1 && st.joins[x].left == k(x) - |q|
          && (0 < |q| < k(x) ==> st.joins[x].saved == Some(Fold(fl.merge, q)))
          && (q == [] ==> st.joins[x].saved == None))
  }

  /** Every node was entered on its last arrival, in the merge of the states of all of them. */
  ghost predicate EntriesOk<S>(fl: Flow<S>, k: Id -> nat, jp: set<Id>, log: seq<Event<S>>)
  {
    forall i :: 0 <= i < |log| && log[i].Enter? ==> EntryOk(fl, k, jp, log[..i], log[i])
  }

  ghost predicate EntryOk<S>(fl: Flow<S>, k: Id -> nat, jp: set<Id>, before: seq<Event<S>>, e: Event<S>)
  {
    var q := States(before, e.n);
    q != [] && |q| == Due(k, jp, e.n) && e.s == Fold(fl.merge, q)
  }

  lemma EntriesAppend<S>(fl: Flow<S>, k: Id -> nat, jp: set<Id>, log: seq<Event<S>>, e: Event<S>)
    requires EntriesOk(fl, k, jp, log) && (e.Enter? ==> EntryOk(fl, k, jp, log, e))
    ensures EntriesOk(fl, k, jp, log + [e])
  {
    var l := log + [e];
    forall i | 0 <= i < |l| && l[i].Enter? ensures EntryOk(fl, k, jp, l[..i], l[i]) {
      assert l[..i] == log[..i];
      if i == |log| { assert log[..i] == log; }
    }
  }

  ghost predicate Inv<S>(fl: Flow<S>, k: Id -> nat, jp: set<Id>, st: State<S>)
  {
    && st.joins.Keys == jp && !st.loop && EntriesOk(fl, k, jp, st.log) && st.cut <= st.visited.Keys
    && forall x :: NodeOk(fl, k, st, x)
  }

  /** An arrival that is put off. */
  lemma SkipOk<S(!new)>(fl: Flow<S>, k: Id -> nat, jp: set<Id>, st: State<S>, x: Id)
    requires Inv(fl, k, jp, st) && JoinFlows(fl, Arrived1(st, x), x).1
    ensures Inv(fl, k, jp, JoinFlows(fl, Arrived1(st, x), x).0)
  {
    var st1 := JoinFlows(fl, Arrived1(st, x), x).0;
    EntriesAppend(fl, k, jp, st.log, Arrive(x, st.s));
    forall y ensures NodeOk(fl, k, st1, y) {
      assert NodeOk(fl, k, st, y);
      SkipNode(fl, k, st, x, y);
    }
  }

  lemma SkipNode<S(!new)>(fl: Flow<S>, k: Id -> nat, st: State<S>, x: Id, y: Id)
    requires JoinFlows(fl, Arrived1(st, x), x).1 && NodeOk(fl, k, st, y)
    ensures NodeOk(fl, k, JoinFlows(fl, Arrived1(st, x), x).0, y)
  {
    LogAppend(st.log, Arrive(x, st.s), y);
    if y == x { SkipStates(fl, k, st, x, States(st.log, x)); }
  }

  lemma SkipStates<S(!new)>(fl: Flow<S>, k: Id -> nat, st: State<S>, x: Id, q: seq<S>)
    requires JoinFlows(fl, Arrived1(st, x), x).1 && StatesOk(fl, k, st, x, q)
    ensures StatesOk(fl, k, JoinFlows(fl, Arrived1(st, x), x).0, x, q + [st.s])
  {
    if q != [] { FoldAppend(fl.merge, q, st.s); }
  }

  /** A further arrival at a node that is not joined. */
  lemma AgainOk<S(!new)>(fl: Flow<S>, k: Id -> nat, jp: set<Id>, st: State<S>, x: Id)
    requires Inv(fl, k, jp, st) && x in st.visited && !JoinFlows(fl, Arrived1(st, x), x).1
    ensures Inv(fl, k, jp, JoinFlows(fl, Arrived1(st, x), x).0) && x !in st.joins
  {
    var st1 := JoinFlows(fl, Arrived1(st, x), x).0;
    assert NodeOk(fl, k, st, x);
    EntriesAppend(fl, k, jp, st.log, Arrive(x, st.s));
    forall y ensures NodeOk(fl, k, st1, y) {
      LogAppend(st.log, Arrive(x, st.s), y);
      assert NodeOk(fl, k, st, y);
    }
  }

  /** The last arrival: the node is entered. */
  lemma EnterIsOk<S(!new)>(fl: Flow<S>, k: Id -> nat, jp: set<Id>, st: State<S>, x: Id)
    requires Inv(fl, k, jp, st) && x !in st.visited && !JoinFlows(fl, Arrived1(st, x), x).1 && Commutes(fl.merge)
    ensures Inv(fl, k, jp, Entered(fl, JoinFlows(fl, Arrived1(st, x), x).0, x))
  {
    var st1 := JoinFlows(fl, Arrived1(st, x), x).0;
    EntriesAppend(fl, k, jp, st.log, Arrive(x, st.s));
    LastArrival(fl, k, jp, st, x);
    EntriesAppend(fl, k, jp, st1.log, Enter(x, st1.s));
    forall y ensures NodeOk(fl, k, Entered(fl, st1, x), y) {
      EnteredOk(fl, k, jp, st, x, y);
    }
  }

  lemma LastArrival<S(!new)>(fl: Flow<S>, k: Id -> nat, jp: set<Id>, st: State<S>, x: Id)
    requires Inv(fl, k, jp, st) && x !in st.visited && !JoinFlows(fl, Arrived1(st, x), x).1 && Commutes(fl.merge)
    ensures (var st1 := JoinFlows(fl, Arrived1(st, x), x).0; EntryOk(fl, k, jp, st1.log, Enter(x, st1.s)))
  {
    var q := States(st.log, x);
    assert NodeOk(fl, k, st, x);
    LogAppend(st.log, Arrive(x, st.s), x);
    if q != [] { FoldAppend(fl.merge, q, st.s); }
  }

  lemma EnteredOk<S(!new)>(fl: Flow<S>, k: Id -> nat, jp: set<Id>, st: State<S>, x: Id, y: Id)
    requires Inv(fl, k, jp, st) && x !in st.visited && !JoinFlows(fl, Arrived1(st, x), x).1
    ensures NodeOk(fl, k, Entered(fl, JoinFlows(fl, Arrived1(st, x), x).0, x), y)
  {
    var st1 := JoinFlows(fl, Arrived1(st, x), x).0;
    assert NodeOk(fl, k, st, x) && NodeOk(fl, k, st, y);
    LogAppend(st.log, Arrive(x, st.s), y);
    LogAppend(st1.log, Enter(x, st1.s), y);
  }

  // ---------- the walk ----------

  /** Between `st` and `st'` exactly the nodes `f` were entered and left. */
  ghost predicate Went<S>(g: Nodes, st: State<S>, st': State<S>, f: seq<Id>)
  {
    && st'.finished == st.finished + f && Distinct(f)
    && (forall x :: x in f ==> x in g && x !in st.visited)
    && (forall x :: x in st'.visited <==> x in st.visited || x in f)
    && (forall x :: x in st.visited ==> st'.visited[x] == st.visited[x] && (x in st'.cut <==> x in st.cut))
    && (forall x :: x in f ==> st'.visited[x])
  }

  /** `open` tells at which of the nodes visited so far preorder went on. */
  ghost predicate Agrees<S>(st: State<S>, open: Id -> bool)
  {
    forall x :: x in st.visited ==> (open(x) <==> x !in st.cut)
  }

  ghost predicate ArrivedAt<S>(g: Nodes, open: Id -> bool, log: seq<Event<S>>, log': seq<Event<S>>, ins: multiset<Ptr>,
                               f: seq<Id>, x: Id)
  {
    |States(log', x)| == |States(log, x)| + ins[Ref(x)] + Inspect.Edges(g, open, f)[Ref(x)]
  }

  /** The arrivals were those of `ins` and those along the edges that leave `f` and were not pruned. */
  ghost predicate Counted<S>(g: Nodes, open: Id -> bool, log: seq<Event<S>>, log': seq<Event<S>>, ins: multiset<Ptr>,
                             f: seq<Id>)
  {
    forall x :: ArrivedAt(g, open, log, log', ins, f, x)
  }

  ghost predicate Walked<S>(g: Nodes, open: Id -> bool, st: State<S>, st': State<S>, ins: multiset<Ptr>, f: seq<Id>)
  {
    Went(g, st, st', f) && (Agrees(st', open) ==> Counted(g, open, st.log, st'.log, ins, f))
  }

  /** The same nodes, whatever state the visitor is in. */
  ghost predicate SameWalk<S>(st: State<S>, st': State<S>)
  {
    st' == st.(s := st'.s)
  }

  lemma WentThen<S>(g: Nodes, st: State<S>, st1: State<S>, st2: State<S>, f1: seq<Id>, f2: seq<Id>)
    requires Went(g, st, st1, f1) && Went(g, st1, st2, f2)
    ensures Went(g, st, st2, f1 + f2)
  {
    assert st.finished + f1 + f2 == st.finished + (f1 + f2);
    var f := f1 + f2;
    forall i, j | 0 <= i < j < |f| ensures f[i] != f[j] {
      if i < |f1| <= j { assert f[i] in f1 && f[j] in f2; }
    }
  }

  lemma CountedThen<S>(g: Nodes, open: Id -> bool, l: seq<Event<S>>, l1: seq<Event<S>>, l2: seq<Event<S>>,
                       in1: multiset<Ptr>, in2: multiset<Ptr>, f1: seq<Id>, f2: seq<Id>)
    requires Counted(g, open, l, l1, in1, f1) && Counted(g, open, l1, l2, in2, f2)
    ensures Counted(g, open, l, l2, in1 + in2, f1 + f2)
  {
    Inspect.EdgesAppend(g, open, f1, f2);
    forall x ensures ArrivedAt(g, open, l, l2, in1 + in2, f1 + f2, x) {
      assert ArrivedAt(g, open, l, l1, in1, f1, x) && ArrivedAt(g, open, l1, l2, in2, f2, x);
    }
  }

  lemma WalkedThen<S>(g: Nodes, open: Id -> bool, st: State<S>, st1: State<S>, st2: State<S>, st3: State<S>,
                      in1: multiset<Ptr>, in2: multiset<Ptr>, f1: seq<Id>, f2: seq<Id>)
    requires Walked(g, open, st, st1, in1, f1) && SameWalk(st1, st2) && Walked(g, open, st2, st3, in2, f2)
    ensures Walked(g, open, st, st3, in1 + in2, f1 + f2)
  {
    WentThen(g, st, st2, st3, f1, f2);
    if Agrees(st3, open) {
      assert Agrees(st1, open);
      CountedThen(g, open, st.log, st1.log, st3.log, in1, in2, f1, f2);
    }
  }

  ghost predicate Sane<S(!new)>(fl: Flow<S>, g: Nodes, k: Id -> nat, jp: set<Id>, st: State<S>)
  {
    Inspect.Closed(g) && Commutes(fl.merge) && Inv(fl, k, jp, st) && st.visited.Keys <= g.Keys
  }

  lemma {:induction false} VisitWalks<S(!new)>(fl: Flow<S>, g: Nodes, k: Id -> nat, jp: set<Id>, open: Id -> bool,
                                               st: State<S>, p: Ptr)
    returns (f: seq<Id>)
    requires Sane(fl, g, k, jp, st) && (p.Ref? ==> p.id in g)
    ensures var st' := Visit(fl, g, st, p);
      !st'.loop ==> Inv(fl, k, jp, st') && Walked(g, open, st, st', multiset{p}, f)
    decreases g.Keys - st.visited.Keys, 0, 1
  {
    f := [];
    if p.Ref? {
      var x := p.id;
      var (st1, skip) := JoinFlows(fl, Arrived1(st, x), x);
      if skip || x in st.visited {
        PassedWalks(fl, g, k, jp, open, st, x);
      } else {
        assert x in g.Keys - st.visited.Keys;
        ArrivalCounted(fl, g, open, st, x);
        EnterIsOk(fl, k, jp, st, x);
        f := EnteredWalks(fl, g, k, jp, open, st, st1, x);
      }
    }
  }

  /** An arrival that is put off, or at a node that has been visited. */
  lemma PassedWalks<S(!new)>(fl: Flow<S>, g: Nodes, k: Id -> nat, jp: set<Id>, open: Id -> bool, st: State<S>, x: Id)
    requires Sane(fl, g, k, jp, st) && x in g && (JoinFlows(fl, Arrived1(st, x), x).1 || x in st.visited)
    ensures var st' := Visit(fl, g, st, Ref(x));
      !st'.loop ==> Inv(fl, k, jp, st') && Walked(g, open, st, st', multiset{Ref(x)}, [])
  {
    var (st1, skip) := JoinFlows(fl, Arrived1(st, x), x);
    ArrivalCounted(fl, g, open, st, x);
    if skip {
      SkipOk(fl, k, jp, st, x);
    } else {
      AgainOk(fl, k, jp, st, x);
      if st.visited[x] { SameInv(fl, k, jp, st1, st1.(s := fl.revisit(x, st1.s))); }
    }
  }

  /** What follows once `x` is entered, with its children or without. */
  lemma {:induction false} EnteredWalks<S(!new)>(fl: Flow<S>, g: Nodes, k: Id -> nat, jp: set<Id>, open: Id -> bool,
                                                 st: State<S>, st1: State<S>, x: Id)
    returns (f: seq<Id>)
    requires x in g && x !in st.visited && Sane(fl, g, k, jp, Entered(fl, st1, x)) && st1.visited == st.visited
    requires Walked(g, open, st, st1, multiset{Ref(x)}, []) && st1.cut <= st1.visited.Keys
    requires JoinFlows(fl, Arrived1(st, x), x) == (st1, false)
    ensures var st' := Visit(fl, g, st, Ref(x));
      !st'.loop ==> Inv(fl, k, jp, st') && Walked(g, open, st, st', multiset{Ref(x)}, f)
    decreases g.Keys - st.visited.Keys, 0, 0
  {
    var st2 := Entered(fl, st1, x);
    var f1, st4 := [], st2;
    assert x in g.Keys - st.visited.Keys;
    if fl.pre(x, st1.s).1 {
      var st3 := BeforeKids(fl, g, st2, x);
      SameInv(fl, k, jp, st2, st3);
      f1 := KidsWalk(fl, g, k, jp, open, st3, x, 0, st2.s);
      assert Kids(g, x)[0..] == Kids(g, x);
      st4 := VisitKids(fl, g, st3, x, 0, st2.s);
      if !st4.loop { SameInv(fl, k, jp, st4, st4.(s := fl.post(x, st4.s))); }
    }
    f := f1 + [x];
    if !st4.loop {
      var st5 := if fl.pre(x, st1.s).1 then st4.(s := fl.post(x, st4.s)) else st2;
      NodeWalked(fl, g, k, jp, open, st, st1, st5, x, f1);
    }
  }

  lemma SameInv<S>(fl: Flow<S>, k: Id -> nat, jp: set<Id>, st: State<S>, st': State<S>)
    requires Inv(fl, k, jp, st) && SameWalk(st, st')
    ensures Inv(fl, k, jp, st')
  {
    forall x ensures NodeOk(fl, k, st', x) { assert NodeOk(fl, k, st, x); }
  }

  lemma ArrivalCounted<S>(fl: Flow<S>, g: Nodes, open: Id -> bool, st: State<S>, x: Id)
    ensures Walked(g, open, st, JoinFlows(fl, Arrived1(st, x), x).0, multiset{Ref(x)}, [])
  {
    forall y ensures ArrivedAt(g, open, st.log, JoinFlows(fl, Arrived1(st, x), x).0.log, multiset{Ref(x)}, [], y) {
      LogAppend(st.log, Arrive(x, st.s), y);
    }
  }

  /** Its children, or none of them. */
  ghost function Went1<S>(fl: Flow<S>, g: Nodes, st1: State<S>, x: Id): seq<Ptr>
  {
    if fl.pre(x, st1.s).1 then Kids(g, x) else []
  }

  lemma NodeWalked<S(!new)>(fl: Flow<S>, g: Nodes, k: Id -> nat, jp: set<Id>, open: Id -> bool, st: State<S>,
                            st1: State<S>, st4: State<S>, x: Id, f1: seq<Id>)
    requires x in g && x !in st.visited && Inv(fl, k, jp, st4) && st1.visited == st.visited
      && st1.cut <= st1.visited.Keys
    requires Walked(g, open, st, st1, multiset{Ref(x)}, [])
    requires Went(g, Entered(fl, st1, x), st4, f1)
    requires Agrees(st4, open)
      ==> Counted(g, open, Entered(fl, st1, x).log, st4.log, multiset(Went1(fl, g, st1, x)), f1)
    ensures Inv(fl, k, jp, Left(st4, x)) && Walked(g, open, st, Left(st4, x), multiset{Ref(x)}, f1 + [x])
  {
    forall y ensures NodeOk(fl, k, Left(st4, x), y) { assert NodeOk(fl, k, st4, y); }
    var st2 := Entered(fl, st1, x);
    NodeWent(g, st, st1, st2, st4, x, f1);
    if Agrees(Left(st4, x), open) {
      assert x in st2.visited && x in st4.visited;
      assert open(x) <==> fl.pre(x, st1.s).1;
      assert Agrees(st4, open) && Agrees(st1, open);
      NodeCounted(g, open, st.log, st1.log, Enter(x, st1.s), st4.log, x, f1);
    }
  }

  lemma NodeWent<S>(g: Nodes, st: State<S>, st1: State<S>, st2: State<S>, st4: State<S>, x: Id, f1: seq<Id>)
    requires x in g && x !in st.visited && Went(g, st, st1, []) && Went(g, st2, st4, f1)
    requires st2.visited == st1.visited[x := false] && st2.finished == st1.finished
    requires forall y :: y in st1.visited ==> (y in st2.cut <==> y in st1.cut)
    ensures Went(g, st, Left(st4, x), f1 + [x])
  {
    assert st.finished + f1 + [x] == st.finished + (f1 + [x]);
    assert x in st2.visited;
  }

  lemma NodeCounted<S>(g: Nodes, open: Id -> bool, l: seq<Event<S>>, l1: seq<Event<S>>, e: Event<S>, l4: seq<Event<S>>,
                       x: Id, f1: seq<Id>)
    requires Counted(g, open, l, l1, multiset{Ref(x)}, []) && e.Enter?
    requires Counted(g, open, l1 + [e], l4, multiset(Inspect.Kids(g, open, x)), f1)
    ensures Counted(g, open, l, l4, multiset{Ref(x)}, f1 + [x])
  {
    var f, ks := f1 + [x], multiset(Inspect.Kids(g, open, x));
    assert Inspect.Edges(g, open, f) == Inspect.Edges(g, open, f1) + ks by { assert f[..|f| - 1] == f1; }
    forall y ensures ArrivedAt(g, open, l, l4, multiset{Ref(x)}, f, y) {
      LogAppend(l1, e, y);
      assert ArrivedAt(g, open, l, l1, multiset{Ref(x)}, [], y) && ArrivedAt(g, open, l1 + [e], l4, ks, f1, y);
    }
  }

  lemma {:induction false} KidsWalk<S(!new)>(fl: Flow<S>, g: Nodes, k: Id -> nat, jp: set<Id>, open: Id -> bool,
                                             st: State<S>, x: Id, i: nat, start: S)
    returns (f: seq<Id>)
    requires Sane(fl, g, k, jp, st) && x in g && i <= |Kids(g, x)|
    ensures var st' := VisitKids(fl, g, st, x, i, start);
      !st'.loop ==> Inv(fl, k, jp, st') && Walked(g, open, st, st', multiset(Kids(g, x)[i..]), f)
    decreases g.Keys - st.visited.Keys, 1, |Kids(g, x)| - i
  {
    f := [];
    var ks := Kids(g, x);
    if i < |ks| {
      assert ks[i] in Ptrs(g[x].kids);
      var st0 := if fl.parallel(x) then st.(s := start) else st;
      SameInv(fl, k, jp, st, st0);
      var f1 := VisitWalks(fl, g, k, jp, open, st0, ks[i]);
      var st1 := Visit(fl, g, st0, ks[i]);
      if !st1.loop {
        var st2 := if fl.parallel(x) then st1.(s := fl.merge(st.s, st1.s)) else st1;
        SameInv(fl, k, jp, st1, st2);
        var f2 := KidsWalk(fl, g, k, jp, open, st2, x, i + 1, start);
        f := f1 + f2;
        if !VisitKids(fl, g, st2, x, i + 1, start).loop {
          KidThenKids(g, open, st, st0, st1, st2, VisitKids(fl, g, st2, x, i + 1, start), ks, i, f1, f2);
        }
      }
    }
  }

  lemma KidThenKids<S>(g: Nodes, open: Id -> bool, st: State<S>, st0: State<S>, st1: State<S>, st2: State<S>,
                       st3: State<S>, ks: seq<Ptr>, i: nat, f1: seq<Id>, f2: seq<Id>)
    requires i < |ks| && SameWalk(st, st0) && SameWalk(st1, st2)
    requires Walked(g, open, st0, st1, multiset{ks[i]}, f1) && Walked(g, open, st2, st3, multiset(ks[i + 1..]), f2)
    ensures Walked(g, open, st, st3, multiset(ks[i..]), f1 + f2)
  {
    assert ks[i..] == [ks[i]] + ks[i + 1..];
    WalkedThen(g, open, st0, st1, st2, st3, multiset{ks[i]}, multiset(ks[i + 1..]), f1, f2);
  }

  // ---------- no loops ----------

  lemma {:induction false} LoopIsReal<S(!new)>(fl: Flow<S>, g: Nodes, k: Id -> nat, jp: set<Id>, st: State<S>,
                                               q: seq<Id>, p: Ptr)
    requires Sane(fl, g, k, jp, st) && (p.Ref? ==> p.id in g) && Visit(fl, g, st, p).loop
    requires forall x :: x in st.visited && !st.visited[x] ==> x in q
    requires q != [] ==> Inspect.IsPath(g, ALL, q) && (p.Ref? ==> Inspect.Edge(g, ALL, q[|q| - 1], p.id))
    ensures p.Ref? && Inspect.LoopReachable(g, ALL, if q == [] then p.id else q[0])
    decreases g.Keys - st.visited.Keys, 0, 0
  {
    var x := p.id;
    if x in st.visited {
      Inspect.MetOnPath(g, ALL, q, x);
    } else {
      assert x in g.Keys - st.visited.Keys;
      EnterIsOk(fl, k, jp, st, x);
      var st2 := Entered(fl, JoinFlows(fl, Arrived1(st, x), x).0, x);
      SameInv(fl, k, jp, st2, BeforeKids(fl, g, st2, x));
      KidLoopIsReal(fl, g, k, jp, BeforeKids(fl, g, st2, x), q + [x], x, 0, st2.s);
    }
  }

  lemma {:induction false} KidLoopIsReal<S(!new)>(fl: Flow<S>, g: Nodes, k: Id -> nat, jp: set<Id>, st: State<S>,
                                                  q: seq<Id>, x: Id, i: nat, start: S)
    requires Sane(fl, g, k, jp, st) && x in g && i <= |Kids(g, x)| && VisitKids(fl, g, st, x, i, start).loop
    requires Inspect.IsPath(g, ALL, q) && q[|q| - 1] == x
    requires forall y :: y in st.visited && !st.visited[y] ==> y in q
    ensures Inspect.LoopReachable(g, ALL, q[0])
    decreases g.Keys - st.visited.Keys, 1, |Kids(g, x)| - i
  {
    var ks := Kids(g, x);
    assert ks[i] in Ptrs(g[x].kids) && (ks[i].Ref? ==> Inspect.Edge(g, ALL, x, ks[i].id));
    var st0 := if fl.parallel(x) then st.(s := start) else st;
    SameInv(fl, k, jp, st, st0);
    var st1 := Visit(fl, g, st0, ks[i]);
    if st1.loop {
      LoopIsReal(fl, g, k, jp, st0, q, ks[i]);
    } else {
      var f := VisitWalks(fl, g, k, jp, ALL, st0, ks[i]);
      var st2 := if fl.parallel(x) then st1.(s := fl.merge(st.s, st1.s)) else st1;
      SameInv(fl, k, jp, st1, st2);
      KidLoopIsReal(fl, g, k, jp, st2, q, x, i + 1, start);
    }
  }

  // ---------- only reachable nodes ----------

  lemma {:induction false} VisitReaches<S>(fl: Flow<S>, g: Nodes, st: State<S>, root: Id, p: Ptr, x: Id)
    requires Inspect.Closed(g) && (p.Ref? ==> p.id in g && Inspect.Reachable(g, ALL, root, p.id))
    requires x in Visit(fl, g, st, p).visited && x !in st.visited
    ensures Inspect.Reachable(g, ALL, root, x)
    decreases g.Keys - st.visited.Keys, 0, 0
  {
    var st1 := JoinFlows(fl, Arrived1(st, p.id), p.id).0;
    if p.id != x {
      assert p.id in g.Keys - st.visited.Keys;
      var st2 := Entered(fl, st1, p.id);
      KidsReach(fl, g, BeforeKids(fl, g, st2, p.id), root, p.id, 0, st2.s, x);
    }
  }

  lemma {:induction false} KidsReach<S>(fl: Flow<S>, g: Nodes, st: State<S>, root: Id, y: Id, i: nat, start: S, x: Id)
    requires Inspect.Closed(g) && y in g && Inspect.Reachable(g, ALL, root, y) && i <= |Kids(g, y)|
    requires x in VisitKids(fl, g, st, y, i, start).visited && x !in st.visited
    ensures Inspect.Reachable(g, ALL, root, x)
    decreases g.Keys - st.visited.Keys, 1, |Kids(g, y)| - i
  {
    var k := Kids(g, y)[i];
    assert k in Ptrs(g[y].kids);
    if k.Ref? { Inspect.ReachableStep(g, ALL, root, y, k.id); }
    var st0 := if fl.parallel(y) then st.(s := start) else st;
    var st1 := Visit(fl, g, st0, k);
    if x in st1.visited {
      VisitReaches(fl, g, st0, root, k, x);
    } else {
      KidsReach(fl, g, if fl.parallel(y) then st1.(s := fl.merge(st.s, st1.s)) else st1, root, y, i + 1, start, x);
    }
  }

  // ---------- who waits for ever ----------

  /** Of the edges to `x` from the nodes of `b`, the nodes of `a` have all if and only if no node with
      such an edge is missing in `a` or cut off. */
  lemma {:induction false} EdgesCompare(g: Nodes, open: Id -> bool, a: seq<Id>, b: seq<Id>, x: Id)
    requires Distinct(a) && Distinct(b) && forall y :: y in a ==> y in b
    ensures Inspect.Edges(g, open, a)[Ref(x)] <= Inspect.Edges(g, ALL, b)[Ref(x)]
    ensures Inspect.Edges(g, open, a)[Ref(x)] == Inspect.Edges(g, ALL, b)[Ref(x)]
       <==> forall y :: y in b && Inspect.Edge(g, ALL, y, x) ==> y in a && open(y)
    decreases |b|
  {
    assert a != [] ==> a[0] in b;
    if b != [] {
      var y, c := b[|b| - 1], b[..|b| - 1];
      assert b == c + [y];
      if y in a {
        var j := Inspect.Index(a, y);
        var d := a[..j] + a[j + 1..];
        forall z ensures z in d <==> z in a && z != y { WithoutOne(a, j, z); }
        DistinctWithout(a, j);
        EdgesCompare(g, open, d, c, x);
        Inspect.EdgesSplit(g, open, a, j);
        OneMore(g, open, a, b, d, c, y, x);
      } else {
        EdgesCompare(g, open, a, c, x);
        assert Inspect.Edge(g, ALL, y, x) <==> multiset(Inspect.Kids(g, ALL, y))[Ref(x)] > 0;
      }
    }
  }

  lemma OneMore(g: Nodes, open: Id -> bool, a: seq<Id>, b: seq<Id>, d: seq<Id>, c: seq<Id>, y: Id, x: Id)
    requires b == c + [y] && y !in c && y in a && forall z :: z in d <==> z in a && z != y
    requires Inspect.Edges(g, open, a) == Inspect.Edges(g, open, d) + multiset(Inspect.Kids(g, open, y))
    requires Inspect.Edges(g, open, d)[Ref(x)] <= Inspect.Edges(g, ALL, c)[Ref(x)]
    requires Inspect.Edges(g, open, d)[Ref(x)] == Inspect.Edges(g, ALL, c)[Ref(x)]
       <==> forall z :: z in c && Inspect.Edge(g, ALL, z, x) ==> z in d && open(z)
    ensures Inspect.Edges(g, open, a)[Ref(x)] <= Inspect.Edges(g, ALL, b)[Ref(x)]
    ensures Inspect.Edges(g, open, a)[Ref(x)] == Inspect.Edges(g, ALL, b)[Ref(x)]
       <==> forall z :: z in b && Inspect.Edge(g, ALL, z, x) ==> z in a && open(z)
  {
    assert b[..|b| - 1] == c;
    assert Inspect.Edge(g, ALL, y, x) <==> multiset(Inspect.Kids(g, ALL, y))[Ref(x)] > 0;
    assert open(y) ==> Inspect.Kids(g, open, y) == Inspect.Kids(g, ALL, y);
  }

  lemma DistinctWithout(b: seq<Id>, j: nat)
    requires j < |b| && Distinct(b)
    ensures Distinct(b[..j] + b[j + 1..])
  {}

  lemma WithoutOne(b: seq<Id>, j: nat, z: Id)
    requires j < |b| && Distinct(b)
    ensures z in b[..j] + b[j + 1..] <==> z in b && z != b[j]
  {
    var d := b[..j] + b[j + 1..];
    if z in b && z != b[j] {
      var i :| 0 <= i < |b| && b[i] == z;
      assert d[if i < j then i else i - 1] == z;
    }
    if z in d {
      var i :| 0 <= i < |d| && d[i] == z;
      assert b[if i < j then i else i + 1] == z;
    }
  }

  lemma {:induction false} SomeEdge(g: Nodes, open: Id -> bool, a: seq<Id>, x: Id)
    ensures Inspect.Edges(g, open, a)[Ref(x)] > 0 <==> exists y :: y in a && Inspect.Edge(g, open, y, x)
    decreases |a|
  {
    if a != [] {
      var y, c := a[|a| - 1], a[..|a| - 1];
      assert a == c + [y];
      SomeEdge(g, open, c, x);
      assert Inspect.Edge(g, open, y, x) <==> multiset(Inspect.Kids(g, open, y))[Ref(x)] > 0;
    }
  }

  /** The walk is over: whatever was entered was left, and every arrival is accounted for. */
  ghost predicate Over<S>(g: Nodes, root: Id, open: Id -> bool, st: State<S>)
  {
    && Inspect.BottomUp(g, ALL, root, Order(g, root)) && Distinct(st.finished)
    && Agrees(st, open) && Counted(g, open, [], st.log, multiset{Ref(root)}, st.finished)
    && (forall x :: x in st.finished <==> x in st.visited)
    && (forall x :: x in st.visited ==> x in Order(g, root))
  }

  /** The walk has gone from `y` to its children. */
  ghost predicate Passed<S>(st: State<S>, y: Id)
  {
    y in st.visited && y !in st.cut
  }

  /** A join point has been entered if and only if the walk has passed every one of its predecessors;
      another node, if and only if it is the root or the walk has passed one of them. */
  ghost predicate EnteredIff<S>(g: Nodes, root: Id, jp: set<Id>, st: State<S>, x: Id)
  {
    x in st.visited <==>
      if x in jp then forall y :: Inspect.Reachable(g, ALL, root, y) && Inspect.Edge(g, ALL, y, x) ==> Passed(st, y)
      else x == root || exists y :: Passed(st, y) && Inspect.Edge(g, ALL, y, x)
  }

  lemma IsEnteredIff<S>(fl: Flow<S>, g: Nodes, root: Id, k: Id -> nat, open: Id -> bool, st: State<S>, x: Id)
    requires Over(g, root, open, st) && Inv(fl, k, st.joins.Keys, st) && k(x) == Arrivals(g, root, x)
    ensures EnteredIff(g, root, st.joins.Keys, st, x)
  {
    assert NodeOk(fl, k, st, x) && ArrivedAt(g, open, [], st.log, multiset{Ref(root)}, st.finished, x);
    var order := Order(g, root);
    if x in st.joins {
      EdgesCompare(g, open, st.finished, order, x);
    } else {
      SomeEdge(g, open, st.finished, x);
      forall y ensures y in st.finished && Inspect.Edge(g, open, y, x)
        <==> Passed(st, y) && Inspect.Edge(g, ALL, y, x) {}
    }
  }

  // ---------- the theorems ----------

  ghost function Joined<S>(fl: Flow<S>, g: Nodes, root: Id): set<Id>
  {
    JoinPoints(fl, CountRun(g, root)).Keys
  }

  lemma JoinedAre<S>(fl: Flow<S>, g: Nodes, root: Id, x: Id)
    requires Inspect.Closed(g) && root in g && !Inspect.LoopReachable(g, ALL, root)
    ensures x in Joined(fl, g, root) <==> Arrivals(g, root, x) > 1 && !fl.filter(x)
  {
    CountsArrivals(g, root, x);
  }

  lemma BeginOk<S>(fl: Flow<S>, g: Nodes, root: Id, s: S, k: Id -> nat)
    requires Inspect.Closed(g) && root in g && !Inspect.LoopReachable(g, ALL, root)
    requires forall x :: k(x) == Arrivals(g, root, x)
    ensures Inv(fl, k, Joined(fl, g, root), Begin(fl, g, root, s))
  {
    forall x ensures NodeOk(fl, k, Begin(fl, g, root, s), x) {
      CountsArrivals(g, root, x);
      JoinedAre(fl, g, root, x);
    }
  }

  /** Where preorder went on. */
  ghost function Open<S>(st: State<S>): Id -> bool
  {
    (x: Id) => x !in st.cut
  }

  lemma RunOver<S(!new)>(fl: Flow<S>, g: Nodes, root: Id, s: S, k: Id -> nat)
    requires Inspect.Closed(g) && root in g && !Inspect.LoopReachable(g, ALL, root) && Commutes(fl.merge)
    requires forall x :: k(x) == Arrivals(g, root, x)
    ensures var st := Run(fl, g, root, s);
      Inv(fl, k, Joined(fl, g, root), st) && Over(g, root, Open(st), st)
  {
    var st0, st, jp := Begin(fl, g, root, s), Run(fl, g, root, s), Joined(fl, g, root);
    BeginOk(fl, g, root, s, k);
    if st.loop { LoopIsReal(fl, g, k, jp, st0, [], Ref(root)); }
    var f := VisitWalks(fl, g, k, jp, Open(st), st0, Ref(root));
    assert st.finished == f;
    RunReaches(fl, g, root, s);
  }

  lemma RunReaches<S(!new)>(fl: Flow<S>, g: Nodes, root: Id, s: S)
    requires Inspect.Closed(g) && root in g && !Inspect.LoopReachable(g, ALL, root)
    ensures Inspect.BottomUp(g, ALL, root, Order(g, root))
    ensures forall x :: x in Run(fl, g, root, s).visited ==> x in Order(g, root)
  {
    assert Inspect.PathTo(g, ALL, root, root, [root]);
    Inspect.OnceEach(g, ALL, root);
    forall x | x in Run(fl, g, root, s).visited ensures x in Order(g, root) {
      VisitReaches(fl, g, Begin(fl, g, root, s), root, Ref(root), x);
    }
  }

  /** On an acyclic IR the walk ends, no node is entered twice, and a join point is entered on the last
      of its arrivals (it is put off on all others), in the merge of the states of all of them.  Which
      nodes are entered depends on where preorder prunes: the counting pass has counted the edges that
      are cut off too, and a join point one of whose predecessors is never passed waits for ever. */
  lemma WhoIsEntered<S(!new)>(fl: Flow<S>, g: Nodes, root: Id, s: S, k: Id -> nat)
    requires Inspect.Closed(g) && root in g && !Inspect.LoopReachable(g, ALL, root) && Commutes(fl.merge)
    requires forall x :: k(x) == Arrivals(g, root, x)
    ensures var st, jp := Run(fl, g, root, s), Joined(fl, g, root);
      && !st.loop && EntriesOk(fl, k, jp, st.log)
      && forall x :: EnteredIff(g, root, jp, st, x) && Entries(st.log, x) == if x in st.visited then 1 else 0
  {
    var st, jp := Run(fl, g, root, s), Joined(fl, g, root);
    RunOver(fl, g, root, s, k);
    forall x ensures EnteredIff(g, root, jp, st, x) && Entries(st.log, x) == if x in st.visited then 1 else 0 {
      IsEnteredIff(fl, g, root, k, Open(st), st, x);
      assert NodeOk(fl, k, st, x);
    }
  }

  /** With nothing pruned, every node all of whose parents were entered is entered: in the end all of
      them. */
  lemma {:induction false} AllEntered<S>(g: Nodes, root: Id, jp: set<Id>, st: State<S>, i: nat)
    requires Inspect.BottomUp(g, ALL, root, Order(g, root)) && i <= |Order(g, root)| && st.cut == {}
    requires forall x :: EnteredIff(g, root, jp, st, x)
    ensures forall j :: i <= j < |Order(g, root)| ==> Order(g, root)[j] in st.visited
    decreases |Order(g, root)| - i
  {
    var order := Order(g, root);
    if i < |order| {
      AllEntered(g, root, jp, st, i + 1);
      var x := order[i];
      assert x in order && EnteredIff(g, root, jp, st, x);
      forall y | y in order && Inspect.Edge(g, ALL, y, x) ensures Passed(st, y) {
        LaterParent(g, root, y, i);
      }
      if x != root { HasParent(g, root, x); }
    }
  }

  lemma LaterParent(g: Nodes, root: Id, y: Id, i: nat)
    requires Inspect.BottomUp(g, ALL, root, Order(g, root)) && i < |Order(g, root)|
    requires y in Order(g, root) && Inspect.Edge(g, ALL, y, Order(g, root)[i])
    ensures exists j :: i < j < |Order(g, root)| && Order(g, root)[j] == y
  {
    var order := Order(g, root);
    var j := Inspect.Index(order, y);
    assert order[i] in order[..j];
    var l :| 0 <= l < j && order[l] == order[i];
    assert l == i;
  }

  lemma HasParent(g: Nodes, root: Id, x: Id)
    requires Inspect.Reachable(g, ALL, root, x) && x != root
    ensures exists y :: Inspect.Reachable(g, ALL, root, y) && Inspect.Edge(g, ALL, y, x)
  {
    var q :| Inspect.PathTo(g, ALL, root, x, q);
    assert Inspect.Edge(g, ALL, q[|q| - 2], q[|q| - 1]);
    assert Inspect.PathTo(g, ALL, root, q[|q| - 2], q[..|q| - 1]);
  }

  ghost predicate Awaited<S>(g: Nodes, root: Id, st: State<S>, x: Id)
  {
    && (x in st.visited <==> Inspect.Reachable(g, ALL, root, x))
    && Entries(st.log, x) == (if Inspect.Reachable(g, ALL, root, x) then 1 else 0)
    && |States(st.log, x)| == Arrivals(g, root, x)
  }

  lemma IsAwaited<S>(g: Nodes, root: Id, open: Id -> bool, st: State<S>, x: Id)
    requires Over(g, root, open, st) && st.cut == {} && Entries(st.log, x) == if x in st.visited then 1 else 0
    requires forall y :: y in Order(g, root) ==> y in st.visited
    ensures Awaited(g, root, st, x)
  {
    assert ArrivedAt(g, open, [], st.log, multiset{Ref(root)}, st.finished, x);
    EdgesCompare(g, open, st.finished, Order(g, root), x);
  }

  /** If nothing is pruned, every reachable node is entered exactly once and is arrived at along every
      edge from a reachable node. */
  lemma EveryPredecessorIsAwaited<S(!new)>(fl: Flow<S>, g: Nodes, root: Id, s: S, k: Id -> nat)
    requires Inspect.Closed(g) && root in g && !Inspect.LoopReachable(g, ALL, root) && Commutes(fl.merge)
    requires Run(fl, g, root, s).cut == {} && forall x :: k(x) == Arrivals(g, root, x)
    ensures forall x :: Awaited(g, root, Run(fl, g, root, s), x)
  {
    var st, order := Run(fl, g, root, s), Order(g, root);
    RunOver(fl, g, root, s, k);
    WhoIsEntered(fl, g, root, s, k);
    AllEntered(g, root, Joined(fl, g, root), st, 0);
    forall y ensures y in order ==> y in st.visited {
      if y in order { var j := Inspect.Index(order, y); }
    }
    forall x ensures Awaited(g, root, st, x) {
      IsAwaited(g, root, Open(st), st, x);
    }
  }

  // ---------- the order of the arrivals does not matter ----------

  ghost predicate Associates<S(!new)>(merge: (S, S) -> S)
  {
    forall a, b, c :: merge(merge(a, b), c) == merge(a, merge(b, c))
  }

  /** The merge of several states is the same in whatever order they arrive. */
  lemma {:induction false} MergeInAnyOrder<S(!new)>(merge: (S, S) -> S, p: seq<S>, q: seq<S>)
    requires Commutes(merge) && Associates(merge) && p != [] && multiset(p) == multiset(q)
    ensures q != [] && Fold(merge, p) == Fold(merge, q)
    decreases |p|
  {
    assert |multiset(p)| == |p| && |multiset(q)| == |q|;
    if |p| == 1 {
      assert p[0] in multiset(q);
    } else {
      var a, p' := p[|p| - 1], p[..|p| - 1];
      assert a in multiset(q);
      var j :| 0 <= j < |q| && q[j] == a;
      var q' := q[..j] + q[j + 1..];
      SameWithout(p, q, j);
      MergeInAnyOrder(merge, p', q');
      PullOut(merge, q, j);
    }
  }

  lemma SameWithout<S>(p: seq<S>, q: seq<S>, j: nat)
    requires p != [] && multiset(p) == multiset(q) && j < |q| && q[j] == p[|p| - 1]
    ensures |q| == |p| && multiset(p[..|p| - 1]) == multiset(q[..j] + q[j + 1..])
  {
    var a, p', q' := p[|p| - 1], p[..|p| - 1], q[..j] + q[j + 1..];
    assert |multiset(p)| == |p| && |multiset(q)| == |q|;
    assert multiset(p) == multiset(p') + multiset{a} by { assert p == p' + [a]; }
    MultisetWithout(q, j);
    assert multiset(p') == (multiset(p') + multiset{a}) - multiset{a};
    assert multiset(q') == (multiset(q') + multiset{a}) - multiset{a};
  }

  lemma {:induction false} PullOut<S(!new)>(merge: (S, S) -> S, q: seq<S>, j: nat)
    requires Commutes(merge) && Associates(merge) && |q| > 1 && j < |q|
    ensures Fold(merge, q) == merge(Fold(merge, q[..j] + q[j + 1..]), q[j])
    decreases |q|
  {
    var n := |q| - 1;
    if j == n {
      assert q[..j] + q[j + 1..] == q[..n];
    } else {
      var r := q[..n];
      var w := r[..j] + r[j + 1..];
      assert q[..j] + q[j + 1..] == w + [q[n]];
      if n == 1 {
        assert w == [];
      } else {
        PullOut(merge, r, j);
        FoldAppend(merge, w, q[n]);
      }
    }
  }

  lemma MultisetWithout<S>(q: seq<S>, j: nat)
    requires j < |q|
    ensures multiset(q) == multiset(q[..j] + q[j + 1..]) + multiset{q[j]}
  {
    assert q == q[..j] + ([q[j]] + q[j + 1..]);
  }
}
