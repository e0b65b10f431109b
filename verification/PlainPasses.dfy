/** How a manager ought to behave, with no backup stack: it remembers what every pass last received and,
    on a trigger, asks the earlier passes one by one.  A manager among the passes does the same. */
module PlainPasses {
  import opened Options
  import opened PassManagers

  // ---------- asking ----------

  /** The passes of `v` that are no managers, at any depth and in order. */
  function Leaves(v: Pass): (ls: seq<Pass>)
    ensures forall l :: l in ls ==> l.Leaf?
    decreases v, 1
  {
    match v
    case Leaf(_, _, _) => [v]
    case Group(ps, _) => AllLeaves(ps)
  }

  function AllLeaves(ps: seq<Pass>): (ls: seq<Pass>)
    ensures forall l :: l in ls ==> l.Leaf?
    decreases ps, 0
  {
    if ps == [] then [] else Leaves(ps[0]) + AllLeaves(ps[1..])
  }

  /** Some pass, at whatever depth, may accept a trigger. */
  ghost predicate Willing(v: Pass)
  {
    exists l :: l in Leaves(v) && l.isBacktrack && !l.never
  }

  /** The trigger is offered to the passes `ls` in order, as far as they are `Backtrack`s. */
  function Offer<W(!new), P(!new), T(!new)>(env: Env<W, P, T>, ls: seq<Pass>, w: W, t: T): (r: (W, bool))
    requires Bounded(env) && forall l :: l in ls ==> l.Leaf?
    ensures env.acceptances(r.0) <= env.acceptances(w) && (r.1 ==> env.acceptances(r.0) < env.acceptances(w))
    decreases |ls|
  {
    if ls == [] then (w, false)
    else if !ls[0].isBacktrack then Offer(env, ls[1..], w, t)
    else
      var (w1, ok) := env.ask(w, ls[0].id, t);
      if ok then (w1, true) else Offer(env, ls[1..], w1, t)
  }

  // ---------- running ----------

  datatype Resumption<W, P> = Resumption(w: W, at: Option<nat>, log: seq<Event<P>>)

  /** Ask the passes before `it`, the latest first, until one accepts. */
  ghost function Resume<W(!new), P(!new), T(!new)>(env: Env<W, P, T>, v: Pass, it: nat, w: W, log: seq<Event<P>>, t: T)
    : (r: Resumption<W, P>)
    requires Bounded(env) && v.Group? && it <= |v.passes|
    ensures env.acceptances(r.w) <= env.acceptances(w)
    ensures r.at.Some? ==> r.at.value < it && env.acceptances(r.w) < env.acceptances(w)
    decreases it
  {
    if it == 0 then Resumption(w, None, log)
    else if !Willing(v.passes[it - 1]) then Resume(env, v, it - 1, w, log, t)
    else
      var (w1, ok) := Offer(env, Leaves(v.passes[it - 1]), w, t);
      var log1 := log + [Asked(it - 1, ok)];
      if ok then Resumption(w1, Some(it - 1), log1) else Resume(env, v, it - 1, w1, log1, t)
  }

  /** A pass is applied; a manager runs its own passes, with a memory of its own. */
  ghost function PlainApply<W(!new), P(!new), T(!new)>(env: Env<W, P, T>, v: Pass, w: W, program: P)
    : (r: (W, Outcome<P, T>))
    requires Bounded(env)
    ensures env.acceptances(r.0) <= env.acceptances(w)
    decreases env.acceptances(w), v, if v.Group? then |v.passes| + 2 else 0
  {
    match v
    case Leaf(id, _, _) => env.apply(w, id, program)
    case Group(_, _) =>
      var r := PlainRun(env, v, 0, program, map[], false, w, []);
      (r.w, r.outcome)
  }

  /** The run that keeps, for every pass, the program it last received. */
  ghost function PlainRun<W(!new), P(!new), T(!new)>(
    env: Env<W, P, T>, v: Pass, it: nat, program: P, received: map<nat, P>, exiting: bool, w: W, log: seq<Event<P>>)
    : (r: Result<W, P, T>)
    requires Bounded(env) && v.Group? && it <= |v.passes| && forall j :: 0 <= j < it ==> j in received
    ensures env.acceptances(r.w) <= env.acceptances(w)
    decreases env.acceptances(w), v, |v.passes| + 1 - it
  {
    if it == |v.passes| then Result(w, Returns(Some(program), false), log)
    else
      var received1 := received[it := program];
      var log1 := log + [Start(it, program)];
      var (w1, out) := PlainApply(env, v.passes[it], w, program);
      match out
      case Throws(t, _) =>
        var r := Resume(env, v, it, w1, log1, t);
        if r.at.None? then Result(r.w, Throws(t, false), r.log)
        else PlainRun(env, v, r.at.value, received1[r.at.value], received1, exiting || out.exit, r.w, r.log)
      case Returns(p, _) =>
        if (v.stopOnError && env.errors(w1) > 0) || p.None? then Result(w1, Returns(None, false), log1)
        else if exiting || out.exit then Result(w1, Returns(p, false), log1)
        else PlainRun(env, v, it + 1, p.value, received1, false, w1, log1)
  }

  // ---------- a manager asks as its passes would be asked ----------

  /** The world when the first `n` of `ls` have been asked. */
  ghost function Told<W, P, T>(env: Env<W, P, T>, ls: seq<Pass>, n: nat, w: W, t: T): W
    requires n <= |ls| && forall l :: l in ls ==> l.Leaf?
  {
    if n == 0 then w
    else
      assert ls[n - 1] in ls;
      env.ask(Told(env, ls, n - 1, w, t), ls[n - 1].id, t).0
  }

  /** Asked behind those before it, the `i`-th of `ls` accepts. */
  ghost predicate Accepts<W, P, T>(env: Env<W, P, T>, ls: seq<Pass>, i: nat, w: W, t: T)
    requires i < |ls| && forall l :: l in ls ==> l.Leaf?
  {
    assert ls[i] in ls;
    env.ask(Told(env, ls, i, w, t), ls[i].id, t).1
  }

  /** The passes of a manager that can be asked at all. */
  ghost function Askable(ls: seq<Pass>): (r: seq<Pass>)
    requires forall l :: l in ls ==> l.Leaf?
    ensures forall l :: l in r ==> l.Leaf?
  {
    if ls == [] then [] else (if ls[0].isBacktrack then [ls[0]] else []) + Askable(ls[1..])
  }

  lemma {:induction false} ToldRest<W, P, T>(env: Env<W, P, T>, ls: seq<Pass>, n: nat, w: W, t: T)
    requires 0 < n <= |ls| && forall l :: l in ls ==> l.Leaf?
    ensures Told(env, ls, n, w, t) == Told(env, ls[1..], n - 1, env.ask(w, ls[0].id, t).0, t)
    decreases n
  {
    assert Told(env, ls, 0, w, t) == w;
    if n > 1 { ToldRest(env, ls, n - 1, w, t); }
  }

  /** Of the passes that can be asked, the first `n` were, and only the last of these has accepted. */
  ghost predicate StopsAt<W, P, T>(env: Env<W, P, T>, ls: seq<Pass>, n: nat, w: W, t: T, r: (W, bool))
    requires n <= |ls| && forall l :: l in ls ==> l.Leaf?
  {
    && r.0 == Told(env, ls, n, w, t)
    && (forall i :: 0 <= i < n ==> (Accepts(env, ls, i, w, t) <==> r.1 && i == n - 1))
    && if r.1 then n > 0 else n == |ls|
  }

  lemma {:induction false} OfferStops<W(!new), P(!new), T(!new)>(env: Env<W, P, T>, ls: seq<Pass>, w: W, t: T)
    returns (n: nat)
    requires Bounded(env) && forall l :: l in ls ==> l.Leaf?
    ensures n <= |Askable(ls)| && StopsAt(env, Askable(ls), n, w, t, Offer(env, ls, w, t))
    decreases |ls|
  {
    n := 0;
    if ls != [] {
      var rest := Askable(ls[1..]);
      if !ls[0].isBacktrack {
        n := OfferStops(env, ls[1..], w, t);
        assert Askable(ls) == rest;
      } else {
        assert Askable(ls) == [ls[0]] + rest && ([ls[0]] + rest)[1..] == rest;
        var (w1, ok) := env.ask(w, ls[0].id, t);
        assert Told(env, Askable(ls), 0, w, t) == w;
        if ok {
          n := 1;
        } else {
          var m := OfferStops(env, ls[1..], w1, t);
          n := m + 1;
          ToldRest(env, Askable(ls), n, w, t);
          forall i | 0 <= i < n
            ensures Accepts(env, Askable(ls), i, w, t) <==> Offer(env, ls, w, t).1 && i == n - 1
          {
            if i > 0 {
              ToldRest(env, Askable(ls), i, w, t);
              assert Accepts(env, rest, i - 1, w1, t) <==> Offer(env, ls[1..], w1, t).1 && i - 1 == m - 1;
            }
          }
        }
      }
    }
  }

  lemma {:induction false} OfferAppend<W(!new), P(!new), T(!new)>(env: Env<W, P, T>, a: seq<Pass>, b: seq<Pass>, w: W,
                                                                  t: T)
    requires Bounded(env) && (forall l :: l in a ==> l.Leaf?) && forall l :: l in b ==> l.Leaf?
    ensures forall l :: l in a + b ==> l.Leaf?
    ensures Offer(env, a + b, w, t)
         == var (w1, ok) := Offer(env, a, w, t); if ok then (w1, true) else Offer(env, b, w1, t)
    decreases |a|
  {
    if a == [] {
      assert a + b == b;
    } else {
      assert (a + b)[1..] == a[1..] + b;
      var w1 := if a[0].isBacktrack then env.ask(w, a[0].id, t).0 else w;
      OfferAppend(env, a[1..], b, w1, t);
    }
  }

  /** Asking a pass is asking the passes in it, one after the other. */
  lemma {:induction false} AskIsOffer<W(!new), P(!new), T(!new)>(env: Env<W, P, T>, v: Pass, w: W, t: T)
    requires Bounded(env) && IsBacktrack(v)
    ensures Ask(env, v, w, t) == Offer(env, Leaves(v), w, t)
    decreases v, 0
  {
    match v
    case Leaf(id, _, _) =>
      var none: seq<Pass> := [];
      assert [v][1..] == none;
    case Group(ps, _) =>
      AskEachIsOffer(env, v, 0, w, t);
      assert ps[0..] == ps;
  }

  lemma {:induction false} AskEachIsOffer<W(!new), P(!new), T(!new)>(env: Env<W, P, T>, v: Pass, i: nat, w: W, t: T)
    requires Bounded(env) && v.Group? && i <= |v.passes|
    ensures AskEach(env, v, i, w, t) == Offer(env, AllLeaves(v.passes[i..]), w, t)
    decreases v, 0, |v.passes| - i
  {
    if i < |v.passes| {
      var x, rest := v.passes[i], v.passes[i + 1..];
      assert v.passes[i..][1..] == rest;
      OfferAppend(env, Leaves(x), AllLeaves(rest), w, t);
      if IsBacktrack(x) {
        AskIsOffer(env, x, w, t);
        AskEachIsOffer(env, v, i + 1, Ask(env, x, w, t).0, t);
      } else {
        AskEachIsOffer(env, v, i + 1, w, t);
      }
    }
  }

  /** A manager accepts a trigger if and only if one of the passes in it, at whatever depth, does when
      they are asked in order, and behind the one that accepts no other is asked. */
  lemma AcceptsIff<W(!new), P(!new), T(!new)>(env: Env<W, P, T>, v: Pass, w: W, t: T) returns (n: nat)
    requires Bounded(env) && v.Group?
    ensures var ls := Askable(Leaves(v)); n <= |ls| && StopsAt(env, ls, n, w, t, Ask(env, v, w, t))
    ensures var ls := Askable(Leaves(v));
      Ask(env, v, w, t).1 <==> exists i :: 0 <= i < |ls| && Accepts(env, ls, i, w, t)
  {
    AskIsOffer(env, v, w, t);
    n := OfferStops(env, Leaves(v), w, t);
    var ls := Askable(Leaves(v));
    if Ask(env, v, w, t).1 { assert Accepts(env, ls, n - 1, w, t); }
  }

  /** A manager keeps snapshots for the passes that hold one that may accept. */
  lemma {:induction false} CandidateIff(v: Pass)
    ensures IsBacktrack(v) && !Never(v) <==> Willing(v)
    decreases v
  {
    match v
    case Leaf(_, _, _) =>
      assert v in [v];
    case Group(ps, _) =>
      forall i | 0 <= i < |ps| ensures IsBacktrack(ps[i]) && !Never(ps[i]) <==> Willing(ps[i]) { CandidateIff(ps[i]); }
      forall l ensures l in Leaves(v) <==> exists i :: 0 <= i < |ps| && l in Leaves(ps[i]) { LeafOf(ps, l); }
  }

  lemma {:induction false} LeafOf(ps: seq<Pass>, l: Pass)
    ensures l in AllLeaves(ps) <==> exists i :: 0 <= i < |ps| && l in Leaves(ps[i])
    decreases |ps|
  {
    if ps != [] {
      LeafOf(ps[1..], l);
      if l in AllLeaves(ps[1..]) {
        var i :| 0 <= i < |ps[1..]| && l in Leaves(ps[1..][i]);
        assert l in Leaves(ps[i + 1]);
      }
      forall i | 0 <= i < |ps| && l in Leaves(ps[i]) ensures i > 0 ==> l in Leaves(ps[1..][i - 1]) {}
    }
  }
}
