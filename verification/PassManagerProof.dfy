/** The backup stack does what it is for: a run behaves like the plain one, at every level of nesting. */
module PassManagerProof {
  import opened Options
  import opened PassManagers
  import opened PlainPasses

  // ---------- the backup stack ----------

  /** The stack when the pass at `it` is about to receive `program`: sorted by position, an entry for
      every candidate before `it`, and in every entry the program that pass last received. */
  ghost predicate StackOk<P(!new)>(v: Pass, it: nat, program: P, backup: seq<Snapshot<P>>, received: map<nat, P>)
  {
    && ValidBackup(v, backup) && it <= |v.passes|
    && (forall i, j :: 0 <= i < j < |backup| ==> backup[i].pos <= backup[j].pos)
    && (forall i :: 0 <= i < |backup| ==> EntryOk(v, it, program, backup[i], received))
    && (forall p :: 0 <= p < it ==> p in received && (Candidate(v.passes[p]) ==> Saved(backup, p)))
  }

  ghost predicate EntryOk<P>(v: Pass, it: nat, program: P, e: Snapshot<P>, received: map<nat, P>)
    requires v.Group? && e.pos < |v.passes|
  {
    && Candidate(v.passes[e.pos])
    && (e.pos == it ==> e.program == program)
    && (e.pos != it ==> e.pos < it && e.pos in received && received[e.pos] == e.program)
  }

  ghost predicate Saved<P(!new)>(backup: seq<Snapshot<P>>, p: nat)
  {
    exists i :: 0 <= i < |backup| && backup[i].pos == p
  }

  /** The pass at `it` is started, and then the next one gets `next`. */
  lemma PushOk<P(!new)>(v: Pass, it: nat, program: P, next: P, backup: seq<Snapshot<P>>, received: map<nat, P>)
    requires StackOk(v, it, program, backup, received) && it < |v.passes|
    ensures StackOk(v, it, program, Pushed(v, it, program, backup), received[it := program])
    ensures StackOk(v, it + 1, next, Pushed(v, it, program, backup), received[it := program])
  {
    var b, r := Pushed(v, it, program, backup), received[it := program];
    forall i | 0 <= i < |b| ensures EntryOk(v, it, program, b[i], r) && EntryOk(v, it + 1, next, b[i], r) {
      if i < |backup| { assert EntryOk(v, it, program, backup[i], received); }
    }
    forall p | 0 <= p <= it && Candidate(v.passes[p]) ensures Saved(b, p) {
      if p < it {
        assert Saved(backup, p);
        var i :| 0 <= i < |backup| && backup[i].pos == p;
        assert b[i].pos == p;
      } else {
        assert b[|backup|].pos == p;
      }
    }
  }

  /** Between two candidates nobody is asked. */
  lemma {:induction false} ResumeSkips<W(!new), P(!new), T(!new)>(env: Env<W, P, T>, v: Pass, it: nat, to: nat, w: W,
                                                                  log: seq<Event<P>>, t: T)
    requires Bounded(env) && v.Group? && to <= it <= |v.passes| && forall p :: to <= p < it ==> !Candidate(v.passes[p])
    ensures Resume(env, v, it, w, log, t) == Resume(env, v, to, w, log, t)
    decreases it
  {
    if to < it {
      assert !Candidate(v.passes[it - 1]);
      CandidateIff(v.passes[it - 1]);
      ResumeSkips(env, v, it - 1, to, w, log, t);
    }
  }

  /** What the two ways of looking for a pass have to agree on. */
  ghost predicate Agree<W, P(!new)>(v: Pass, r: Unwound<W, P>, s: Resumption<W, P>, received: map<nat, P>)
  {
    && r.w == s.w && r.log == s.log && (r.backup == [] <==> s.at.None?)
    && (s.at.Some? ==> Resumed(v, r, s.at.value, received))
  }

  ghost predicate Resumed<W, P(!new)>(v: Pass, r: Unwound<W, P>, at: nat, received: map<nat, P>)
  {
    r.it == at && at in received && r.program == received[at] && StackOk(v, at, r.program, r.backup, received)
  }

  /** The loop over the stack asks the same passes in the same order, and ends with the program the
      accepting pass last received. */
  lemma {:induction false} UnwindResumes<W(!new), P(!new), T(!new)>(env: Env<W, P, T>, v: Pass, u: Unwound<W, P>,
                                                                    t: T, received: map<nat, P>)
    requires Bounded(env) && StackOk(v, u.it, u.program, u.backup, received) && u.it in received
      && received[u.it] == u.program
    ensures Agree(v, Unwind(env, v, u, t), Resume(env, v, u.it, u.w, u.log, t), received)
    decreases |u.backup|, if u.backup != [] && u.backup[|u.backup| - 1].pos != u.it then 1 else 0, 1
  {
    if u.backup == [] {
      forall p | 0 <= p < u.it ensures !Candidate(v.passes[p]) { }
      ResumeSkips(env, v, u.it, 0, u.w, u.log, t);
    } else if u.backup[|u.backup| - 1].pos == u.it {
      DropOk(v, u.it, u.program, u.backup, received);
      UnwindResumes(env, v, u.(backup := u.backup[..|u.backup| - 1]), t, received);
    } else {
      TopResumes(env, v, u, t, received);
    }
  }

  /** The pass of the top entry is asked. */
  lemma {:induction false} TopResumes<W(!new), P(!new), T(!new)>(env: Env<W, P, T>, v: Pass, u: Unwound<W, P>,
                                                                 t: T, received: map<nat, P>)
    requires Bounded(env) && StackOk(v, u.it, u.program, u.backup, received) && u.backup != []
    requires u.backup[|u.backup| - 1].pos != u.it
    ensures Agree(v, Unwind(env, v, u, t), Resume(env, v, u.it, u.w, u.log, t), received)
    decreases |u.backup|, 1, 0
  {
    var top := u.backup[|u.backup| - 1];
    LowerOk(v, u.it, u.program, u.backup, received);
    ResumeFromTop(env, v, u, t);
    var (w1, ok) := Ask(env, v.passes[top.pos], u.w, t);
    if !ok {
      UnwindResumes(env, v, Unwound(top.pos, top.program, u.backup, w1, u.log + [Asked(top.pos, ok)]), t, received);
    }
  }

  lemma ResumeFromTop<W(!new), P(!new), T(!new)>(env: Env<W, P, T>, v: Pass, u: Unwound<W, P>, t: T)
    requires Bounded(env) && ValidBackup(v, u.backup) && u.backup != [] && u.it <= |v.passes|
    requires var top := u.backup[|u.backup| - 1];
      top.pos < u.it && Candidate(v.passes[top.pos]) && forall p :: top.pos < p < u.it ==> !Candidate(v.passes[p])
    ensures var top := u.backup[|u.backup| - 1];
      var (w1, ok) := Ask(env, v.passes[top.pos], u.w, t);
      var log1 := u.log + [Asked(top.pos, ok)];
      Resume(env, v, u.it, u.w, u.log, t)
      == if ok then Resumption(w1, Some(top.pos), log1) else Resume(env, v, top.pos, w1, log1, t)
  {
    var pos := u.backup[|u.backup| - 1].pos;
    ResumeSkips(env, v, u.it, pos + 1, u.w, u.log, t);
    CandidateIff(v.passes[pos]);
    AskIsOffer(env, v.passes[pos], u.w, t);
  }

  lemma DropOk<P(!new)>(v: Pass, it: nat, program: P, backup: seq<Snapshot<P>>, received: map<nat, P>)
    requires StackOk(v, it, program, backup, received) && backup != [] && backup[|backup| - 1].pos == it
    ensures StackOk(v, it, program, backup[..|backup| - 1], received)
  {
    var b := backup[..|backup| - 1];
    forall i | 0 <= i < |b| ensures EntryOk(v, it, program, b[i], received) {
      assert EntryOk(v, it, program, backup[i], received);
    }
    forall p | 0 <= p < it && Candidate(v.passes[p]) ensures Saved(b, p) {
      assert Saved(backup, p);
      var i :| 0 <= i < |backup| && backup[i].pos == p;
      assert b[i].pos == p;
    }
  }

  lemma LowerOk<P(!new)>(v: Pass, it: nat, program: P, backup: seq<Snapshot<P>>, received: map<nat, P>)
    requires StackOk(v, it, program, backup, received) && backup != [] && backup[|backup| - 1].pos != it
    ensures var top := backup[|backup| - 1];
      && top.pos < it && Candidate(v.passes[top.pos]) && top.pos in received && received[top.pos] == top.program
      && StackOk(v, top.pos, top.program, backup, received)
      && forall p :: top.pos < p < it ==> !Candidate(v.passes[p])
  {
    var top := backup[|backup| - 1];
    assert EntryOk(v, it, program, top, received);
    forall i | 0 <= i < |backup| ensures EntryOk(v, top.pos, top.program, backup[i], received) {
      assert EntryOk(v, it, program, backup[i], received);
      assert backup[i].pos <= top.pos;
    }
    forall p | top.pos < p < it ensures !Candidate(v.passes[p]) { }
  }

  /** A run with the backup stack is the plain run: same program or trigger, same world, same events. */
  lemma {:induction false} RunIsPlain<W(!new), P(!new), T(!new)>(
    env: Env<W, P, T>, v: Pass, it: nat, program: P, backup: seq<Snapshot<P>>, received: map<nat, P>, exiting: bool,
    w: W, log: seq<Event<P>>)
    requires Bounded(env) && StackOk(v, it, program, backup, received)
    ensures Run(env, v, it, program, backup, exiting, w, log)
      == PlainRun(env, v, it, program, received, exiting, w, log)
    decreases env.acceptances(w), v, |v.passes| + 1 - it, 1
  {
    if it < |v.passes| {
      var backup1, received1 := Pushed(v, it, program, backup), received[it := program];
      var log1 := log + [Start(it, program)];
      ApplyIsPlain(env, v.passes[it], w, program);
      var (w1, out) := Apply(env, v.passes[it], w, program);
      if out.Throws? {
        ThrowIsPlain(env, v, it, program, backup, received, exiting, w, log);
      } else if !((v.stopOnError && env.errors(w1) > 0) || out.program.None?) && !exiting && !out.exit {
        PushOk(v, it, program, out.program.value, backup, received);
        RunIsPlain(env, v, it + 1, out.program.value, backup1, received1, false, w1, log1);
      }
    }
  }

  /** The next pass throws, and the stack is unwound. */
  lemma {:induction false} ThrowIsPlain<W(!new), P(!new), T(!new)>(
    env: Env<W, P, T>, v: Pass, it: nat, program: P, backup: seq<Snapshot<P>>, received: map<nat, P>, exiting: bool,
    w: W, log: seq<Event<P>>)
    requires Bounded(env) && StackOk(v, it, program, backup, received) && it < |v.passes|
    requires Apply(env, v.passes[it], w, program).1.Throws?
      && PlainApply(env, v.passes[it], w, program) == Apply(env, v.passes[it], w, program)
    ensures Run(env, v, it, program, backup, exiting, w, log)
      == PlainRun(env, v, it, program, received, exiting, w, log)
    decreases env.acceptances(w), v, |v.passes| + 1 - it, 0
  {
    var received1 := received[it := program];
    var (w1, out) := Apply(env, v.passes[it], w, program);
    var u := Unwound(it, program, Pushed(v, it, program, backup), w1, log + [Start(it, program)]);
    PushOk(v, it, program, program, backup, received);
    UnwindResumes(env, v, u, out.trigger, received1);
    var r := Unwind(env, v, u, out.trigger);
    if r.backup != [] {
      RunIsPlain(env, v, r.it, r.program, r.backup, received1, exiting || out.exit, r.w, r.log);
    }
  }

  /** Applying a pass, and so a manager with all the managers in it, is plain. */
  lemma {:induction false} ApplyIsPlain<W(!new), P(!new), T(!new)>(env: Env<W, P, T>, v: Pass, w: W, program: P)
    requires Bounded(env)
    ensures Apply(env, v, w, program) == PlainApply(env, v, w, program)
    decreases env.acceptances(w), v, if v.Group? then |v.passes| + 2 else 0, 0
  {
    if v.Group? { RunIsPlain(env, v, 0, program, [], map[], false, w, []); }
  }

  /** A whole run of a manager. */
  lemma ManagerIsPlain<W(!new), P(!new), T(!new)>(env: Env<W, P, T>, v: Pass, w: W, program: P)
    requires Bounded(env) && v.Group?
    ensures Run(env, v, 0, program, [], false, w, []) == PlainRun(env, v, 0, program, map[], false, w, [])
  {
    RunIsPlain(env, v, 0, program, [], map[], false, w, []);
  }

  // ---------- who is asked ----------

  /** Every willing pass from the one just before `it` down to `low` is asked once; they refuse, except
      the one at `low` if it is the one that is `found`. */
  ghost function AskedDown<P>(v: Pass, it: nat, low: nat, found: bool): seq<Event<P>>
    requires v.Group? && low <= it <= |v.passes|
    decreases it
  {
    if it == low then []
    else
      (if Willing(v.passes[it - 1]) then [Asked(it - 1, found && it - 1 == low)] else [])
         + AskedDown(v, it - 1, low, found)
  }

  /** A trigger is offered to every earlier pass that may accept it at most once, the latest first; the
      first to accept is resumed; it is thrown again exactly if all of them refuse. */
  lemma {:induction false} ResumeAsks<W(!new), P(!new), T(!new)>(env: Env<W, P, T>, v: Pass, it: nat, w: W,
                                                                 log: seq<Event<P>>, t: T)
    requires Bounded(env) && v.Group? && it <= |v.passes|
    ensures var r := Resume(env, v, it, w, log, t);
      && r.log == log + AskedDown(v, it, if r.at.Some? then r.at.value else 0, r.at.Some?)
      && (r.at.Some? ==> Willing(v.passes[r.at.value]))
    decreases it
  {
    if it > 0 {
      var r := Resume(env, v, it, w, log, t);
      if Willing(v.passes[it - 1]) {
        var (w1, ok) := Offer(env, Leaves(v.passes[it - 1]), w, t);
        if ok {
          assert AskedDown<P>(v, it, it - 1, true) == [Asked(it - 1, true)] + [];
        } else {
          ResumeAsks(env, v, it - 1, w1, log + [Asked(it - 1, false)], t);
          OneMoreAsked(v, it, r.at, log);
        }
      } else {
        ResumeAsks(env, v, it - 1, w, log, t);
        OneMoreAsked(v, it, r.at, log);
      }
    }
  }

  /** The pass before `it` is asked, if it is willing, and refuses; then the others are. */
  lemma OneMoreAsked<P>(v: Pass, it: nat, at: Option<nat>, log: seq<Event<P>>)
    requires v.Group? && 0 < it <= |v.passes| && (at.Some? ==> at.value < it - 1)
    ensures var low := if at.Some? then at.value else 0;
      var log1 := if Willing(v.passes[it - 1]) then log + [Asked(it - 1, false)] else log;
      log1 + AskedDown<P>(v, it - 1, low, at.Some?) == log + AskedDown<P>(v, it, low, at.Some?)
  {
    var low := if at.Some? then at.value else 0;
    var one: seq<Event<P>> := if Willing(v.passes[it - 1]) then [Asked(it - 1, false)] else [];
    var rest := AskedDown<P>(v, it - 1, low, at.Some?);
    assert log + one + rest == log + (one + rest);
  }

  lemma {:induction false} AskedDownAreAsks<P>(v: Pass, it: nat, low: nat, found: bool)
    requires v.Group? && low <= it <= |v.passes|
    ensures forall e :: e in AskedDown<P>(v, it, low, found) ==> e.Asked?
    decreases it
  {
    if it > low { AskedDownAreAsks<P>(v, it - 1, low, found); }
  }

  /** The passes that never accept may be left out: asking them would change no answer. */
  ghost predicate NeverIsHonest<W(!new), P(!new), T(!new)>(env: Env<W, P, T>, v: Pass)
    decreases v
  {
    match v
    case Leaf(id, _, never) => never ==> forall w, t :: !env.ask(w, id, t).1
    case Group(ps, _) => forall i :: 0 <= i < |ps| ==> NeverIsHonest(env, ps[i])
  }

  lemma {:induction false} NeverRefuses<W(!new), P(!new), T(!new)>(env: Env<W, P, T>, v: Pass, w: W, t: T)
    requires Bounded(env) && NeverIsHonest(env, v) && Never(v)
    ensures !Ask(env, v, w, t).1
    decreases v, 0
  {
    if v.Group? { NoneAccepts(env, v, 0, w, t); }
  }

  lemma {:induction false} NoneAccepts<W(!new), P(!new), T(!new)>(env: Env<W, P, T>, v: Pass, i: nat, w: W, t: T)
    requires Bounded(env) && v.Group? && NeverIsHonest(env, v) && Never(v) && i <= |v.passes|
    ensures !AskEach(env, v, i, w, t).1
    decreases v, 0, |v.passes| - i
  {
    if i < |v.passes| {
      var w1 := w;
      if IsBacktrack(v.passes[i]) {
        NeverRefuses(env, v.passes[i], w, t);
        w1 := Ask(env, v.passes[i], w, t).0;
      }
      NoneAccepts(env, v, i + 1, w1, t);
    }
  }

  // ---------- how long it can take ----------

  ghost function Starts<P>(log: seq<Event<P>>): nat
  {
    if log == [] then 0 else Starts(log[..|log| - 1]) + if log[|log| - 1].Start? then 1 else 0
  }

  lemma StartsAppend<P>(log: seq<Event<P>>, e: Event<P>)
    ensures Starts(log + [e]) == Starts(log) + if e.Start? then 1 else 0
  {
    assert (log + [e])[..|log|] == log;
  }

  lemma {:induction false} AsksAreNoStarts<P(!new)>(log: seq<Event<P>>, asks: seq<Event<P>>)
    requires forall e :: e in asks ==> e.Asked?
    ensures Starts(log + asks) == Starts(log)
    decreases |asks|
  {
    if asks == [] {
      assert log + asks == log;
    } else {
      var l := asks[..|asks| - 1];
      AsksAreNoStarts(log, l);
      assert asks[|asks| - 1] in asks;
      assert log + asks == (log + l) + [asks[|asks| - 1]];
      StartsAppend(log + l, asks[|asks| - 1]);
    }
  }

  /** How many passes a run may still start, with `left` acceptances left. */
  ghost function Budget(n: nat, it: nat, left: nat): int
  {
    n - it + left * n
  }

  lemma BudgetShrinks(n: nat, it: nat, left: nat, it': nat, left': nat)
    requires it < n && it' <= n && left' <= left && (left' < left || it' == it + 1)
    ensures 1 + Budget(n, it', left') <= Budget(n, it, left)
  {
    if left' < left {
      assert left * n == left' * n + (left - left') * n;
      Times(1, left - left', n);
    } else {
      Times(left', left, n);
    }
  }

  lemma ResumeStartsNothing<W(!new), P(!new), T(!new)>(env: Env<W, P, T>, v: Pass, it: nat, w: W, log: seq<Event<P>>,
                                                       t: T)
    requires Bounded(env) && v.Group? && it <= |v.passes|
    ensures Starts(Resume(env, v, it, w, log, t).log) == Starts(log)
  {
    var r := Resume(env, v, it, w, log, t);
    var low := if r.at.Some? then r.at.value else 0;
    ResumeAsks(env, v, it, w, log, t);
    AskedDownAreAsks<P>(v, it, low, r.at.Some?);
    AsksAreNoStarts(log, AskedDown(v, it, low, r.at.Some?));
  }

  /** A run applies its passes at most once each, and once more each for every trigger that is accepted. */
  lemma {:induction false} BoundedRun<W(!new), P(!new), T(!new)>(
    env: Env<W, P, T>, v: Pass, it: nat, program: P, received: map<nat, P>, exiting: bool, w: W, log: seq<Event<P>>)
    requires Bounded(env) && v.Group? && it <= |v.passes| && forall j :: 0 <= j < it ==> j in received
    ensures Starts(PlainRun(env, v, it, program, received, exiting, w, log).log)
         <= Starts(log) + Budget(|v.passes|, it, env.acceptances(w))
    decreases env.acceptances(w), |v.passes| - it
  {
    Times(0, env.acceptances(w), |v.passes|);
    if it < |v.passes| {
      var received1, log1 := received[it := program], log + [Start(it, program)];
      StartsAppend(log, Start(it, program));
      var (w1, out) := PlainApply(env, v.passes[it], w, program);
      if out.Throws? {
        var r := Resume(env, v, it, w1, log1, out.trigger);
        ResumeStartsNothing(env, v, it, w1, log1, out.trigger);
        if r.at.Some? {
          BoundedRun(env, v, r.at.value, received1[r.at.value], received1, exiting || out.exit, r.w, r.log);
          BudgetShrinks(|v.passes|, it, env.acceptances(w), r.at.value, env.acceptances(r.w));
        }
      } else if !((v.stopOnError && env.errors(w1) > 0) || out.program.None?) && !exiting && !out.exit {
        BoundedRun(env, v, it + 1, out.program.value, received1, false, w1, log1);
        BudgetShrinks(|v.passes|, it, env.acceptances(w), it + 1, env.acceptances(w1));
      }
    }
  }

  lemma Times(a: nat, b: nat, n: nat)
    requires a <= b
    ensures 0 <= a * n <= b * n
  {
    assert b * n == a * n + (b - a) * n;
    assert (b - a) * n >= 0;
  }
}
