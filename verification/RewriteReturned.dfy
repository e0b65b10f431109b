/** The vectors that a visit returns, where what a second visit does to their elements shows. */
module RewriteReturned {
  import opened IRGraph
  import opened Rewrite
  import opened RewriteState
  import opened RewriteSteps
  import opened RewriteProof
  import opened RewriteAgain

  // ---------- vectors that are built ----------

  /** A new element of a vector: the new nodes in it are kept, and a vector is kept or changes. */
  ghost predicate BuiltTemplate(v: Visitor, m: Meaning, f: Template, ks: seq<Slot<Tree>>)
  {
    f.New? ==> LastingAll(v, m, f.fields, ks) && (Kept(m, Grow(f, ks)) || Decided(m, Grow(f, ks)))
  }

  ghost predicate BuiltAll(v: Visitor, m: Meaning, fs: seq<Slot<Template>>, ks: seq<Slot<Tree>>)
  {
    fs == [] || (BuiltTemplate(v, m, fs[0].at, ks) && BuiltAll(v, m, fs[1..], ks))
  }

  ghost predicate BuiltPost(v: Visitor, m: Meaning, act: PostAction, ks: seq<Slot<Tree>>)
  {
    match act
    case Drop => true
    case Take(i) => i < |ks| ==> !IsVector(ks[i].at)
    case Build(l, fs, _) => l.vector ==> BuiltAll(v, m, fs, ks)
  }

  /** A vector that is returned for `t` is built by postorder, out of such elements. */
  ghost predicate BuiltFor(v: Visitor, m: Meaning, t: Tree, seen: seq<Slot<Part>>)
    requires t.Tree?
  {
    match m.pre(t, Tree(t.tag, Nows(seen)))
    case Remove => true
    case Go(l, sel, _, prune) =>
      if prune then l.vector ==> sel == []
      else
        var ks := Settle(Pick(seen, sel, NONE));
        BuiltPost(v, m, m.post(t, Tree(l, ks)), ks)
  }

  /** Old children can be elements. */
  lemma {:induction false} OldsLast(v: Visitor, m: Meaning, fs: seq<Slot<Template>>, ks: seq<Slot<Tree>>)
    requires forall i :: 0 <= i < |fs| ==> fs[i].at.Old?
    ensures BuiltAll(v, m, fs, ks) && LastingAll(v, m, fs, ks)
    decreases |fs|
  {
    if fs != [] { OldsLast(v, m, fs[1..], ks); }
  }

  /** Which elements are new and not kept. */
  ghost predicate Mark(m: Meaning, f: Template, ks: seq<Slot<Tree>>)
  {
    f.New? && !Kept(m, Grow(f, ks))
  }

  ghost function Marks(m: Meaning, fs: seq<Slot<Template>>, ks: seq<Slot<Tree>>): (marks: seq<bool>)
    ensures |marks| == |fs| && forall i :: 0 <= i < |fs| ==> marks[i] == Mark(m, fs[i].at, ks)
  {
    seq(|fs|, i requires 0 <= i < |fs| => Mark(m, fs[i].at, ks))
  }

  lemma MarksFit(m: Meaning, fs: seq<Slot<Template>>, ks: seq<Slot<Tree>>)
    ensures Trees(GrowAll(fs, ks), Marks(m, fs, ks))
  {
    forall i | 0 <= i < |fs| && Marks(m, fs, ks)[i] ensures GrowAll(fs, ks)[i].at.Tree? { GrowAt(fs, ks, i); }
  }

  /** The same for what is returned for `t`. */
  ghost function MarksFor(m: Meaning, t: Tree, seen: seq<Slot<Part>>): (marks: seq<bool>)
    requires t.Tree? && Outcome(m, t, seen).Tree?
    ensures |marks| == |Outcome(m, t, seen).kids| && Trees(Outcome(m, t, seen).kids, marks)
  {
    var go := m.pre(t, Tree(t.tag, Nows(seen)));
    var ks := Settle(Pick(seen, go.sel, NONE));
    if !go.prune && m.post(t, Tree(go.tag, ks)).Build? then
      var fs := m.post(t, Tree(go.tag, ks)).fields;
      MarksFit(m, fs, ks);
      Marks(m, fs, ks)
    else
      seq(|Outcome(m, t, seen).kids|, i => false)
  }

  function Elements(o: Tree): seq<Slot<Tree>>
    requires o.Tree?
  {
    Rekind(o.kids, Elem(0))
  }

  /** What a second vector gets for `t`, if the first one gets the elements of the outcome. */
  ghost function SecondElements(m: Meaning, t: Tree, seen: seq<Slot<Part>>): seq<Slot<Tree>>
    requires t.Tree? && Outcome(m, t, seen).Tree?
  {
    Twice(m, Elements(Outcome(m, t, seen)), MarksFor(m, t, seen))
  }

  // ---------- what a template leaves ----------

  lemma PlantAgain(
    v: Visitor, m: Meaning, st: State, orig: set<Id>, f: Slot<Template>, ks: seq<Slot<Ptr>>, ts: seq<Slot<Tree>>)
    requires v.Forwards() && Good(v, m, st, orig) && UnfoldsAll(st.nodes, ks, ts) && AllIdle(v, m, st, orig, ks, ts)
    requires BuiltTemplate(v, m, f.at, ts)
    ensures (var r, u := Plant(st.nodes, st.next, f.at, ks), Grow(f.at, ts);
      var st' := st.(nodes := r.nodes, next := r.next);
      Again(v, m, st', orig, Slot(f.kind, r.value), Slot(f.kind, u), Mark(m, f.at, ts)))
  {
    PlantOk(st.nodes, st.next, f.at, ks, ts);
    if LastingTemplate(v, m, f.at, ts) {
      PlantIdle(v, m, st, orig, f.at, ks, ts);
    } else {
      var fields := f.at.fields;
      PlantAllIdle(v, m, st, orig, fields, ks, ts);
      PlantAllOk(st.nodes, st.next, fields, ks, ts);
      var r := PlantAll(st.nodes, st.next, fields, ks);
      var st1 := st.(nodes := r.nodes, next := r.next);
      var st2 := st.(nodes := r.nodes[r.next := Node(f.at.tag, r.value)], next := r.next + 1);
      IdleAllocates(v, m, st1, st2.nodes, st2.next, orig);
      AllIdleGrows(v, m, st1, st2, orig, r.value, GrowAll(fields, ts));
    }
  }

  lemma {:induction false} PlantAllAgain(
    v: Visitor, m: Meaning, st: State, orig: set<Id>, fs: seq<Slot<Template>>, ks: seq<Slot<Ptr>>, ts: seq<Slot<Tree>>)
    requires v.Forwards() && Good(v, m, st, orig) && UnfoldsAll(st.nodes, ks, ts) && AllIdle(v, m, st, orig, ks, ts)
    requires BuiltAll(v, m, fs, ts)
    ensures (var r := PlantAll(st.nodes, st.next, fs, ks);
      var st' := st.(nodes := r.nodes, next := r.next);
      AllAgain(v, m, st', orig, r.value, GrowAll(fs, ts), Marks(m, fs, ts)) && Apart(r.value, Marks(m, fs, ts)))
    decreases |fs|
  {
    if fs != [] {
      assert fs[0].at < fs[0];
      PlantAgain(v, m, st, orig, fs[0], ks, ts);
      PlantFirst(v, m, st, orig, fs[0].at, ks, ts);
      var first := Plant(st.nodes, st.next, fs[0].at, ks);
      var st1 := st.(nodes := first.nodes, next := first.next);
      PlantAllAgain(v, m, st1, orig, fs[1..], ks, ts);
      PlantAllOk(st1.nodes, st1.next, fs[1..], ks, ts);
      PlantJoins(v, m, st, orig, fs, ks, ts, st1);
    }
  }

  /** The first element and the others. */
  lemma PlantJoins(
    v: Visitor, m: Meaning, st: State, orig: set<Id>, fs: seq<Slot<Template>>, ks: seq<Slot<Ptr>>, ts: seq<Slot<Tree>>,
    st1: State)
    requires Basic(v, st) && fs != [] && UnfoldsAll(st.nodes, ks, ts)
    requires (var first := Plant(st.nodes, st.next, fs[0].at, ks);
      && st1 == st.(nodes := first.nodes, next := first.next) && Allocated(st1.nodes, st1.next)
      && Again(v, m, st1, orig, Slot(fs[0].kind, first.value), Slot(fs[0].kind, Grow(fs[0].at, ts)),
         Mark(m, fs[0].at, ts)))
    requires (var rest := PlantAll(st1.nodes, st1.next, fs[1..], ks);
      var st2 := st1.(nodes := rest.nodes, next := rest.next);
      && SubGraph(st1.nodes, st2.nodes) && Apart(rest.value, Marks(m, fs[1..], ts))
      && AllAgain(v, m, st2, orig, rest.value, GrowAll(fs[1..], ts), Marks(m, fs[1..], ts)))
    ensures (var r := PlantAll(st.nodes, st.next, fs, ks);
      var st' := st.(nodes := r.nodes, next := r.next);
      AllAgain(v, m, st', orig, r.value, GrowAll(fs, ts), Marks(m, fs, ts)) && Apart(r.value, Marks(m, fs, ts)))
  {
    var first := Plant(st.nodes, st.next, fs[0].at, ks);
    var rest := PlantAll(st1.nodes, st1.next, fs[1..], ks);
    var st2 := st1.(nodes := rest.nodes, next := rest.next);
    IdleAllocates(v, m, st1, st2.nodes, st2.next, orig);
    var s, u := Slot(fs[0].kind, first.value), Slot(fs[0].kind, Grow(fs[0].at, ts));
    AgainGrows(v, m, st1, st2, orig, s, u, Mark(m, fs[0].at, ts));
    AgainJoin(v, m, st2, orig, s, u, Mark(m, fs[0].at, ts), rest.value, GrowAll(fs[1..], ts), Marks(m, fs[1..], ts));
    FirstApart(v, m, st, fs, ks, ts);
    ApartJoin(s, Mark(m, fs[0].at, ts), rest.value, Marks(m, fs[1..], ts));
    assert Marks(m, fs, ts) == [Mark(m, fs[0].at, ts)] + Marks(m, fs[1..], ts);
  }

  lemma ApartJoin(s: Slot<Ptr>, mark: bool, ks: seq<Slot<Ptr>>, marks: seq<bool>)
    requires |ks| == |marks| && Apart(ks, marks)
    requires mark ==> forall j :: 0 <= j < |ks| ==> ks[j].at != s.at
    ensures Apart([s] + ks, [mark] + marks)
  {}

  /** What was known of the children is known when the first node has been planted. */
  lemma PlantFirst(
    v: Visitor, m: Meaning, st: State, orig: set<Id>, f: Template, ks: seq<Slot<Ptr>>, ts: seq<Slot<Tree>>)
    requires Good(v, m, st, orig) && UnfoldsAll(st.nodes, ks, ts) && AllIdle(v, m, st, orig, ks, ts)
    ensures (var r := Plant(st.nodes, st.next, f, ks);
      var st' := st.(nodes := r.nodes, next := r.next);
      Good(v, m, st', orig) && UnfoldsAll(st'.nodes, ks, ts) && AllIdle(v, m, st', orig, ks, ts))
  {
    PlantOk(st.nodes, st.next, f, ks, ts);
    var r := Plant(st.nodes, st.next, f, ks);
    var st' := st.(nodes := r.nodes, next := r.next);
    IdleAllocates(v, m, st, st'.nodes, st'.next, orig);
    AllIdleGrows(v, m, st, st', orig, ks, ts);
    UnfoldsAllGrows(st.nodes, st'.nodes, ks, ts);
    GoodAllocates(v, m, st, orig, st'.nodes, st'.next);
  }

  lemma AgainJoin(
    v: Visitor, m: Meaning, st: State, orig: set<Id>, s: Slot<Ptr>, u: Slot<Tree>, mark: bool, ks: seq<Slot<Ptr>>,
    ts: seq<Slot<Tree>>, marks: seq<bool>)
    requires Again(v, m, st, orig, s, u, mark) && AllAgain(v, m, st, orig, ks, ts, marks)
    ensures AllAgain(v, m, st, orig, [s] + ks, [u] + ts, [mark] + marks)
  {
    forall i | 0 <= i < |ts| + 1 ensures Again(v, m, st, orig, ([s] + ks)[i], ([u] + ts)[i], ([mark] + marks)[i]) {
      if i > 0 { assert Again(v, m, st, orig, ks[i - 1], ts[i - 1], marks[i - 1]); }
    }
  }

  /** What a template puts in one place is an old child or a new node. */
  lemma {:induction false} PlantedAt(nodes: Nodes, next: Id, fs: seq<Slot<Template>>, ks: seq<Slot<Ptr>>, j: nat)
    requires j < |fs|
    ensures (var p := PlantAll(nodes, next, fs, ks).value[j].at;
      p.Null? || p.id >= next || exists i :: 0 <= i < |ks| && ks[i].at == p)
    decreases |fs|
  {
    var first := Plant(nodes, next, fs[0].at, ks);
    if j > 0 { PlantedAt(first.nodes, first.next, fs[1..], ks, j - 1); }
  }

  /** A new node is not in the place of the others. */
  lemma FirstApart(
    v: Visitor, m: Meaning, st: State, fs: seq<Slot<Template>>, ks: seq<Slot<Ptr>>, ts: seq<Slot<Tree>>)
    requires Basic(v, st) && fs != [] && UnfoldsAll(st.nodes, ks, ts)
    ensures (var first := Plant(st.nodes, st.next, fs[0].at, ks);
      var rest := PlantAll(first.nodes, first.next, fs[1..], ks);
      fs[0].at.New? ==> forall j :: 0 <= j < |rest.value| ==> rest.value[j].at != first.value)
  {
    var first := Plant(st.nodes, st.next, fs[0].at, ks);
    var rest := PlantAll(first.nodes, first.next, fs[1..], ks);
    if fs[0].at.New? {
      forall j | 0 <= j < |rest.value| ensures rest.value[j].at != first.value {
        PlantedAt(first.nodes, first.next, fs[1..], ks, j);
        forall i | 0 <= i < |ks| ensures ks[i].at != first.value { assert UnfoldsAt(st.nodes, ks[i], ts[i]); }
      }
    }
  }

  // ---------- what a visit returns ----------

  /** The elements of the vector `r`, which unfolds to `o`, when they are visited again. */
  ghost predicate ElementsAgain(
    v: Visitor, m: Meaning, st: State, orig: set<Id>, r: Ptr, o: Tree, marks: seq<bool>)
    requires o.Tree?
  {
    && r.Ref? && r.id in st.nodes && AllAgain(v, m, st, orig, st.nodes[r.id].kids, o.kids, marks)
    && Apart(st.nodes[r.id].kids, marks)
  }

  /** Postorder returns a vector. */
  lemma AppliedAgain(
    v: Visitor, m: Meaning, st2: State, orig: set<Id>, t: Tree, f: Frame, ks: seq<Slot<Tree>>, act: PostAction)
    requires v.Forwards() && Good(v, m, st2, orig) && UnfoldsAll(st2.nodes, f.copy.kids, ks)
    requires AllIdle(v, m, st2, orig, f.copy.kids, ks) && t.Tree? && act == m.post(t, Tree(f.copy.tag, ks))
    requires f.clone !in st2.nodes && f.clone < st2.next
    requires BuiltPost(v, m, act, ks) && IsVector(Finished(m, t, f.copy.tag, ks))
    ensures act.Build?
    ensures (var (st3, final) := Postordered(st2, f, act);
      ElementsAgain(v, m, st3, orig, final, Finished(m, t, f.copy.tag, ks), Marks(m, act.fields, ks)))
  {
    var (st3, final) := Postordered(st2, f, act);
    BuiltFinal(st2, f, ks, act);
    PlantAllAgain(v, m, st2, orig, act.fields, f.copy.kids, ks);
    PlantAllOk(st2.nodes, st2.next, act.fields, f.copy.kids, ks);
    var r := PlantAll(st2.nodes, st2.next, act.fields, f.copy.kids);
    var st1 := st2.(nodes := r.nodes, next := r.next);
    IdleAllocates(v, m, st1, st3.nodes, st3.next, orig);
    AgainUnvisited(v, m, st1, orig, r.value, GrowAll(act.fields, ks), Marks(m, act.fields, ks));
    AllAgainGrows(v, m, st1, st3, orig, r.value, GrowAll(act.fields, ks), Marks(m, act.fields, ks));
  }

  lemma AgainUnvisited(
    v: Visitor, m: Meaning, st: State, orig: set<Id>, ks: seq<Slot<Ptr>>, ts: seq<Slot<Tree>>, marks: seq<bool>)
    requires AllAgain(v, m, st, orig, ks, ts, marks)
    ensures Unvisited(st.visited, ks, marks)
  {
    forall i | 0 <= i < |ks| && marks[i] && ks[i].at.Ref? ensures ks[i].at.id !in st.visited {
      assert Again(v, m, st, orig, ks[i], ts[i], marks[i]);
    }
  }

  /** The visit ends. */
  lemma ClosedAgain(
    v: Visitor, m: Meaning, st: State, st3: State, orig: set<Id>, x: Id, t: Tree, o: Tree, lasting: bool, f: Frame,
    final: Ptr, marks: seq<bool>)
    requires v.Forwards() && Good(v, m, st3, orig) && Mid(v, orig, st, st3, x, f) && x in st.nodes && o.Tree?
    requires FinalOk(v, m, st3, orig, x, t, o, lasting, f, final) && ElementsAgain(v, m, st3, orig, final, o, marks)
    requires f.standIn in st3.nodes
    ensures var (st', r) := Close(st3, x, f, final);
      ElementsAgain(v, m, st', orig, r, o, marks)
  {
    var (st', r) := Close(st3, x, f, final);
    CloseUnfolds(v, m, orig, st, st3, x, t, o, lasting, f, final);
    CloseKeeps(v, st, st3, orig, x, f, final);
    CloseSettles(v, m, st, st3, orig, x, f, final);
    var ks := st3.nodes[final.id].kids;
    assert st'.nodes[r.id].kids == ks;
    SameNode(st3.nodes, final, f.standIn, o);
    forall i | 0 <= i < |ks| && marks[i] && ks[i].at.Ref? ensures ks[i].at.id !in st'.visited {
      assert Again(v, m, st3, orig, ks[i], o.kids[i], marks[i]);
      HeightOfKid(o.kids, i);
      if Settled(st3.nodes, f.standIn, final) == ks[i].at { UnfoldsUnique(st3.nodes, ks[i].at, o, o.kids[i].at); }
    }
    AllAgainGrows(v, m, st3, st', orig, ks, o.kids, marks);
  }

  /** The elements of the vector that a visit returns. */
  lemma VisitReturns(
    v: Visitor, m: Meaning, st: State, orig: set<Id>, x: Id, t: Tree, seen: seq<Slot<Part>>, d: nat)
    requires Implements(v, m) && v.Forwards() && Good(v, m, st, orig) && Finds(v, m, st, orig, x, t, seen, d)
    requires IsVector(Outcome(m, t, seen)) && BuiltFor(v, m, t, seen)
    ensures var (st', r) := Visit(v, st, Ref(x), d);
      ElementsAgain(v, m, st', orig, r, Outcome(m, t, seen), MarksFor(m, t, seen))
  {
    AskedMeans(v, m, st, orig, x, t, seen, d);
    VisitedOk(v, m, st, orig, x, t, seen, d);
    VisitSteps(v, st, x, d);
    var (st3, f, final) := Visited(v, st, x, d);
    var o := Outcome(m, t, seen);
    if Asked(v, st, x).prune {
      UnfoldsNode(st3.nodes, final, o);
    } else {
      PostorderAgain(v, m, st, orig, x, t, seen, d);
    }
    ClosedAgain(v, m, st, st3, orig, x, t, o, LastingFor(v, m, t, seen), f, final, MarksFor(m, t, seen));
  }

  lemma PostorderAgain(
    v: Visitor, m: Meaning, st: State, orig: set<Id>, x: Id, t: Tree, seen: seq<Slot<Part>>, d: nat)
    requires Implements(v, m) && v.Forwards() && Good(v, m, st, orig) && Finds(v, m, st, orig, x, t, seen, d)
    requires IsVector(Outcome(m, t, seen)) && BuiltFor(v, m, t, seen)
    requires Asked(v, st, x) == m.pre(t, Tree(t.tag, Nows(seen))) && Asked(v, st, x).Go? && !Asked(v, st, x).prune
    ensures var (st3, f, final) := Visited(v, st, x, d);
      ElementsAgain(v, m, st3, orig, final, Outcome(m, t, seen), MarksFor(m, t, seen))
  {
    var go := Asked(v, st, x);
    RevisitedOk(v, m, st, orig, x, t, seen, d);
    var (st2, f) := Revisited(v, st, x, go, d);
    var ks := Settle(Pick(seen, go.sel, NONE));
    UnfoldsNode(st.nodes, Ref(x), t);
    UnfoldsAllGrows(st.nodes, st2.nodes, st.nodes[x].kids, t.kids);
    AppliedFinal(v, m, st2, st.nodes[x], t, f, ks);
    AppliedAgain(v, m, st2, orig, t, f, ks, v.post(st2.nodes, st.nodes[x], f.copy));
  }
}
