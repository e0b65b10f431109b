/** The depth that the stack of visited nodes may have: more of it changes nothing but an overflow. */
module RewriteRoom {
  import opened IRGraph
  import opened Rewrite

  /** What has been raised stays raised. */
  lemma {:induction false} BugStays(v: Visitor, st: State, n: Ptr, d: nat)
    requires st.bug
    ensures Visit(v, st, n, d).0.bug
    decreases d, 1
  {
    if n.Ref? && n.id in st.nodes && d > 0 && Asked(v, st, n.id).Go? {
      BugStaysIn(v, st, n.id, d);
    }
  }

  lemma {:induction false} BugStaysIn(v: Visitor, st: State, x: Id, d: nat)
    requires st.bug && x in st.nodes && Asked(v, st, x).Go? && d > 0
    ensures Visited(v, st, x, d).0.bug
    decreases d, 0
  {
    var go := Asked(v, st, x);
    if !go.prune {
      var (st1, f) := Open(v, st, x, go);
      BugStaysAll(v, st1, f.copy.kids, d - 1);
    }
  }

  lemma {:induction false} BugStaysAll(v: Visitor, st: State, ks: seq<Slot<Ptr>>, d: nat)
    requires st.bug
    ensures VisitAll(v, st, ks, d).0.bug
    decreases d, 2, |ks|
  {
    if ks != [] {
      BugStays(v, st, ks[0].at, d);
      BugStaysAll(v, Visit(v, st, ks[0].at, d).0, ks[1..], d);
    }
  }

  /** A visit that raised nothing goes as it does with more room. */
  lemma {:induction false} MoreRoom(v: Visitor, st: State, n: Ptr, d: nat, e: nat)
    requires d <= e && !Visit(v, st, n, d).0.bug
    ensures Visit(v, st, n, e) == Visit(v, st, n, d)
    decreases d, 1
  {
    if n.Ref? && n.id in st.nodes && d > 0 && Asked(v, st, n.id).Go?
      && !(v.visitDagOnce && Done(st.visited, n.id)) && !(n.id in st.visited && st.visited[n.id].inProgress)
    {
      MoreRoomIn(v, st, n.id, d, e);
    }
  }

  lemma {:induction false} MoreRoomIn(v: Visitor, st: State, x: Id, d: nat, e: nat)
    requires x in st.nodes && Asked(v, st, x).Go? && 0 < d <= e && !Visited(v, st, x, d).0.bug
    ensures Visited(v, st, x, e) == Visited(v, st, x, d)
    decreases d, 0
  {
    var go := Asked(v, st, x);
    if !go.prune {
      var (st1, f) := Open(v, st, x, go);
      MoreRoomAll(v, st1, f.copy.kids, d - 1, e - 1);
    }
  }

  lemma {:induction false} MoreRoomAll(v: Visitor, st: State, ks: seq<Slot<Ptr>>, d: nat, e: nat)
    requires d <= e && !VisitAll(v, st, ks, d).0.bug
    ensures VisitAll(v, st, ks, e) == VisitAll(v, st, ks, d)
    decreases d, 2, |ks|
  {
    if ks != [] {
      var st1 := Visit(v, st, ks[0].at, d).0;
      if st1.bug { BugStaysAll(v, st1, ks[1..], d); }
      MoreRoom(v, st, ks[0].at, d, e);
      MoreRoomAll(v, st1, ks[1..], d, e);
    }
  }
}
